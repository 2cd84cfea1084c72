/** Abstract results of the calls the deployment scripts make into AWS, Cognito, the
    AgentCore toolkit and the terminal. Each call the scripts make is replaced by the outcome
    it can have: found / not found / failed, succeeded / raised an exception with a message,
    a listing or a listing failure. */
module Outcomes {
  import opened Text

  datatype Option<T> = None | Some(value: T)

  /** A describe/get call for one named resource: it exists, the service said it does not,
      or any other exception (permissions, throttling, network). */
  datatype Lookup = Found | NotFound | LookupError(message: string)

  /** A call that either returns or raises an exception whose `str(e)` is `message`. */
  datatype Outcome = Ok | Raised(message: string)

  /** A list call: the items it returned, or the exception it raised. */
  datatype Listing<T> = Listed(items: seq<T>) | ListingFailed(message: string)

  /** The items of a listing, or none when the listing raised. */
  function ItemsOr<T>(l: Listing<T>): seq<T> {
    match l
    case Listed(items) => items
    case ListingFailed(_) => []
  }

  /** Python truthiness of an optional string read from the environment:
      unset and empty are both false. */
  predicate IsSet(v: Option<string>) {
    v.Some? && v.value != ""
  }

  /** The GitHub OAuth credentials read from GITHUB_CLIENT_ID and GITHUB_CLIENT_SECRET. */
  datatype Credentials = Credentials(clientId: Option<string>, clientSecret: Option<string>)

  predicate CredentialsPresent(c: Credentials) {
    IsSet(c.clientId) && IsSet(c.clientSecret)
  }

  /** The answers the scripts accept as "yes" after `.strip().lower()`. */
  predicate IsYes(answer: string) {
    Lower(Strip(answer)) in ["y", "yes", "1", "true"]
  }

  /** The process environment as `os.getenv` sees it. */
  type Env = map<string, string>

  function GetEnv(env: Env, key: string): Option<string> {
    if key in env then Some(env[key]) else None
  }
}
