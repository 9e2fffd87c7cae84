/**
 * The test configuration: each setting read from the environment map,
 * with its default when the variable is unset or empty. Loading the
 * `.env` file into that map is not part of this model.
 */
module Env {
  import opened Wrappers
  import opened JsText

  /** `process.env`: variable names to values; an unset variable is absent. */
  type Environment = map<string, string>

  /** `process.env[name]` as an optional value. */
  function Var(env: Environment, name: string): Option<string>
  {
    if name in env then Some(env[name]) else None
  }

  const DefaultBaseUrl := "http://localhost:3000"
  const DefaultAdminUrl := "http://localhost:3000/admin"
  const DefaultApiUrl := "http://localhost:3000/api"

  function BaseUrl(env: Environment): string { TextOr(Var(env, "BASE_URL"), DefaultBaseUrl) }
  function AdminUrl(env: Environment): string { TextOr(Var(env, "ADMIN_URL"), DefaultAdminUrl) }
  function ApiUrl(env: Environment): string { TextOr(Var(env, "API_URL"), DefaultApiUrl) }

  /** The worker count: WORKERS read as a decimal integer, "1" standing in when it is unset or empty. */
  function Workers(env: Environment): JsNumber { ParseInt(TextOr(Var(env, "WORKERS"), "1")) }

  /** Headless mode: off when HEADLESS is unset, otherwise on exactly when it is "true". */
  function Headless(env: Environment): bool
  {
    if "HEADLESS" !in env then false else env["HEADLESS"] == "true"
  }

  function AdminUsername(env: Environment): string { TextOr(Var(env, "ADMIN_USERNAME"), "") }
  function AdminPassword(env: Environment): string { TextOr(Var(env, "ADMIN_PASSWORD"), "") }

  /** The module's default export. */
  datatype Config = Config(
    baseUrl: string,
    adminUrl: string,
    apiUrl: string,
    workers: JsNumber,
    headless: bool,
    adminUsername: string,
    adminPassword: string)

  function DefaultExport(env: Environment): Config
  {
    Config(BaseUrl(env), AdminUrl(env), ApiUrl(env), Workers(env), Headless(env),
           AdminUsername(env), AdminPassword(env))
  }

  /** With no variable set, the export is the localhost setup: one worker, headed, no credentials. */
  lemma UnsetEnvironmentExport()
    ensures DefaultExport(map[]) ==
      Config(DefaultBaseUrl, DefaultAdminUrl, DefaultApiUrl, Num(1), false, "", "")
  {
    WorkersDefault(map[]);
  }

  /** Unset or empty: the localhost default; otherwise the variable's value. The URL is never empty. */
  lemma UrlDefaults(env: Environment)
    ensures ("BASE_URL" !in env || env["BASE_URL"] == "") ==> BaseUrl(env) == DefaultBaseUrl
    ensures "BASE_URL" in env && env["BASE_URL"] != "" ==> BaseUrl(env) == env["BASE_URL"]
    ensures ("ADMIN_URL" !in env || env["ADMIN_URL"] == "") ==> AdminUrl(env) == DefaultAdminUrl
    ensures "ADMIN_URL" in env && env["ADMIN_URL"] != "" ==> AdminUrl(env) == env["ADMIN_URL"]
    ensures ("API_URL" !in env || env["API_URL"] == "") ==> ApiUrl(env) == DefaultApiUrl
    ensures "API_URL" in env && env["API_URL"] != "" ==> ApiUrl(env) == env["API_URL"]
    ensures BaseUrl(env) != "" && AdminUrl(env) != "" && ApiUrl(env) != ""
  {
  }

  /** Unset: false; set, even to "": true exactly for "true". */
  lemma HeadlessCases(env: Environment)
    ensures "HEADLESS" !in env ==> !Headless(env)
    ensures "HEADLESS" in env ==> (Headless(env) <==> env["HEADLESS"] == "true")
  {
  }

  /** Unset or empty: 1 worker; otherwise the variable's value read by `parseInt`. */
  lemma WorkersDefault(env: Environment)
    ensures ("WORKERS" !in env || env["WORKERS"] == "") ==> Workers(env) == Num(1)
    ensures "WORKERS" in env && env["WORKERS"] != "" ==> Workers(env) == ParseInt(env["WORKERS"])
  {
    ParseIntRoundTrip(1);
    assert IntToDecimal(1) == "1";
  }

  /** The credentials are empty unless set. */
  lemma CredentialsDefault(env: Environment)
    ensures "ADMIN_USERNAME" !in env ==> AdminUsername(env) == ""
    ensures "ADMIN_PASSWORD" !in env ==> AdminPassword(env) == ""
    ensures "ADMIN_USERNAME" in env ==> AdminUsername(env) == env["ADMIN_USERNAME"]
    ensures "ADMIN_PASSWORD" in env ==> AdminPassword(env) == env["ADMIN_PASSWORD"]
  {
  }
}
