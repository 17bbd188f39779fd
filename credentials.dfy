/** The guard at the top of `create_api`: the four OAuth secrets are read from
    the environment and the API is only built when every one of them is set
    to a non-empty string. */
module Credentials {
  import opened Wrappers
  import opened Records

  const ConsumerKeyVar := "TWITTER_CONSUMER_KEY"
  const ConsumerSecretVar := "TWITTER_CONSUMER_SECRET"
  const AccessTokenVar := "TWITTER_ACCESS_TOKEN"
  const AccessSecretVar := "TWITTER_ACCESS_TOKEN_SECRET"

  /** The four secrets handed on to the OAuth handler. */
  datatype Credentials = Credentials(
    consumerKey: string,
    consumerSecret: string,
    accessToken: string,
    accessSecret: string)

  /** Python truthiness of the result of `os.getenv`: both None and "" are false. */
  predicate Truthy(v: Option<string>) {
    v.Some? && v.value != ""
  }

  /** `os.getenv(name)`: None when the variable is not set. */
  function Getenv(env: map<string, string>, name: string): (v: Option<string>)
    ensures v.Some? <==> name in env
    ensures v.Some? ==> v.value == env[name]
  {
    if name in env then Some(env[name]) else None
  }

  /** Python's `all(values)`: true exactly when every element is truthy. */
  function All(values: seq<Option<string>>): (b: bool)
    ensures b <==> forall i :: 0 <= i < |values| ==> Truthy(values[i])
  {
    if values == [] then true
    else Truthy(values[0]) && All(values[1..])
  }

  /** The completeness check over the four values read from the environment:
      it raises unless all four are present and non-empty, and otherwise
      passes them on unchanged. */
  function CheckCredentials(consumerKey: Option<string>, consumerSecret: Option<string>,
                            accessToken: Option<string>, accessSecret: Option<string>)
    : (r: Result<Credentials, Error>)
    ensures r.Success? <==>
      Truthy(consumerKey) && Truthy(consumerSecret) && Truthy(accessToken) && Truthy(accessSecret)
    ensures r.Failure? ==> r.error == MissingCredentials
    ensures r.Success? ==>
      && Some(r.value.consumerKey) == consumerKey
      && Some(r.value.consumerSecret) == consumerSecret
      && Some(r.value.accessToken) == accessToken
      && Some(r.value.accessSecret) == accessSecret
  {
    var values := [consumerKey, consumerSecret, accessToken, accessSecret];
    if !All(values) then
      Failure(MissingCredentials)
    else
      assert Truthy(values[0]) && Truthy(values[1]) && Truthy(values[2]) && Truthy(values[3]);
      Success(Credentials(consumerKey.value, consumerSecret.value, accessToken.value, accessSecret.value))
  }

  /** Reading the four variables from the environment and checking them. */
  function ResolveCredentials(env: map<string, string>): (r: Result<Credentials, Error>)
    ensures r.Success? <==>
      forall name :: name in [ConsumerKeyVar, ConsumerSecretVar, AccessTokenVar, AccessSecretVar] ==>
        name in env && env[name] != ""
    ensures r.Failure? ==> r.error == MissingCredentials
    ensures r.Success? ==>
      r.value == Credentials(env[ConsumerKeyVar], env[ConsumerSecretVar],
                             env[AccessTokenVar], env[AccessSecretVar])
  {
    CheckCredentials(Getenv(env, ConsumerKeyVar), Getenv(env, ConsumerSecretVar),
                     Getenv(env, AccessTokenVar), Getenv(env, AccessSecretVar))
  }

  /** Only the four named variables are consulted: two environments that agree
      on them resolve to the same outcome. */
  lemma ResolveReadsOnlyFourVariables(env: map<string, string>, env': map<string, string>)
    requires forall name :: name in [ConsumerKeyVar, ConsumerSecretVar, AccessTokenVar, AccessSecretVar] ==>
      Getenv(env, name) == Getenv(env', name)
    ensures ResolveCredentials(env) == ResolveCredentials(env')
  {
  }
}
