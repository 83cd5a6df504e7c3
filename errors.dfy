/** The failures a summarization request can end in, one variant per kind of exception raised. */
module Errors {
  import opened Wrappers

  datatype ServiceError =
    /** `GitHubClientError(message, status_code)` */
    | GitHubClientError(message: string, statusCode: Option<int>)
    /** `LLMClientError(message, status_code)` */
    | LLMClientError(message: string, statusCode: Option<int>)
    /** Any other exception: a missing key in a decoded reply, an index error, a validation error. */
    | UnexpectedError(cause: string)
}
