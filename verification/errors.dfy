/** The ways a run can end in failure. Each corresponds to one panic site of
    the program; the message text is not modelled, only the failing step and
    the value it names. */
module Errors {

  import opened Api

  datatype Error =
    | RequiredVarMissing(name: string)       // `env::var(..).expect(..)`: unset or not Unicode
    | VarNotUnicode(name: string)            // `optional_env_var` on a non-Unicode value
    | BaseUrlUnresolved                      // neither PLUGIN_BASE_URL nor a usable DRONE_REPO_LINK
    | FileUnreadable(path: string)           // `std::fs::read` failed on a text setting's file
    | FileNotUtf8(path: string)              // `String::from_utf8` failed
    | InvalidBoolean(name: string)           // `bool::from_str` rejected the setting
    | CreationRejected(response: Response)   // release creation not sent or not 2xx
    | CreationResponseUnparsable             // the 2xx body lacks `id` or `url`
    | GlobInvalid(pattern: string)           // `glob(..)` could not compile the pattern
    | GlobEntryFailed(pattern: string)       // a match of the pattern could not be read
    | AssetUnreadable(path: string)          // `std::fs::read` failed on an asset
    | FormEncodingFailed(path: string)       // the upload body could not be encoded
    | UploadRejected(path: string, response: Response)  // upload not sent or not 2xx
}
