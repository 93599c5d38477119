/** The host the step runs on, reduced to what the workflow reads from it:
    the process environment and whole-file reads. */
module Host {

  import opened Wrappers
  import opened Errors

  type byte = b: int | 0 <= b < 256

  /** An environment variable's value; `NotUnicode` is Rust's `VarError::NotUnicode`. */
  datatype EnvValue = Unicode(text: string) | NotUnicode

  /** A missing key is Rust's `VarError::NotPresent`. */
  type Env = map<string, EnvValue>

  /** `std::fs::read` and `String::from_utf8`, both as oracles. */
  datatype Files = Files(read: string -> Option<seq<byte>>, decode: seq<byte> -> Option<string>)

  /** `name` is set to a Unicode value. */
  predicate HasText(env: Env, name: string) {
    name in env && env[name].Unicode?
  }

  /** `env::var(name).expect(..)`: the variable must be set and Unicode. */
  function RequiredVar(env: Env, name: string): (r: Result<string, Error>)
    ensures r.Success? <==> HasText(env, name)
    ensures r.Success? ==> r.value == env[name].text
    ensures r.Failure? ==> r.error == RequiredVarMissing(name)
  {
    if HasText(env, name) then Success(env[name].text) else Failure(RequiredVarMissing(name))
  }

  /** `env::var(name).ok()`: any failure is just absence. */
  function VarIfText(env: Env, name: string): (r: Option<string>)
    ensures r.Some? <==> HasText(env, name)
    ensures r.Some? ==> r.value == env[name].text
  {
    if HasText(env, name) then Some(env[name].text) else None
  }

  /** `optional_env_var`: absent gives `None`, a Unicode value gives it, and a
      non-Unicode value is an error. */
  function OptionalVar(env: Env, name: string): (r: Result<Option<string>, Error>)
    ensures r == Success(None) <==> name !in env
    ensures r.Success? && r.value.Some? <==> HasText(env, name)
    ensures r.Success? && r.value.Some? ==> r.value.value == env[name].text
    ensures r.Failure? <==> name in env && env[name].NotUnicode?
    ensures r.Failure? ==> r.error == VarNotUnicode(name)
  {
    if name !in env then Success(None)
    else match env[name]
      case Unicode(text) => Success(Some(text))
      case NotUnicode => Failure(VarNotUnicode(name))
  }

  /** `filename_to_contents`: read the whole file and decode it as UTF-8. */
  function FileText(files: Files, path: string): (r: Result<string, Error>)
    ensures r.Success? <==> files.read(path).Some? && files.decode(files.read(path).value).Some?
    ensures r.Success? ==> r.value == files.decode(files.read(path).value).value
    ensures files.read(path).None? ==> r == Failure(FileUnreadable(path))
    ensures files.read(path).Some? && files.decode(files.read(path).value).None? ==> r == Failure(FileNotUtf8(path))
  {
    match files.read(path)
    case None => Failure(FileUnreadable(path))
    case Some(bytes) =>
      match files.decode(bytes)
      case None => Failure(FileNotUtf8(path))
      case Some(text) => Success(text)
  }
}
