/** The calls the wrappers make on the appliance client, as values.

    The client itself (HTTP transport, session, capability enforcement) is not
    modelled: a wrapper's behaviour is the single call it decides to make, or the
    return object it asks the client to build.
 */
module Client {

  datatype Option<+T> = None | Some(value: T)

  /** The capability keyword arguments passed along with a call. `None` means the
      keyword is absent or passed as `None`. */
  datatype Caps = Caps(modules: Option<seq<string>>, version: Option<string>, model: Option<string>)

  /** One entry of the file list given to `invoke_post_files`. */
  datatype FileSpec = FileSpec(formField: string, filename: string, mimetype: string)

  /** What a wrapper returns: either the client is asked to build a return object
      (`create_return_object`) or one request is dispatched to the appliance. */
  datatype Action =
    /** `create_return_object(changed=..., warnings=...)`; an omitted keyword is
        `changed=False` or `warnings=[]`. */
    | Envelope(changed: bool, warnings: seq<string>)
    /** `create_return_object(x)`: one list passed positionally, no keywords. */
    | EnvelopePositional(first: seq<string>)
    | InvokeGet(description: string, path: string, caps: Caps)
    | InvokePost(description: string, path: string, body: map<string, string>, caps: Caps, ignoreError: bool)
    | InvokeDelete(description: string, path: string, caps: Caps)
    | InvokePostFiles(description: string, path: string, files: seq<FileSpec>,
                      extraFields: map<string, string>, caps: Caps, warnings: seq<string>)
    | InvokeGetFile(description: string, path: string, destination: string, caps: Caps)
  {
    /** True when a request goes to the appliance. */
    predicate Dispatches() {
      !Envelope? && !EnvelopePositional?
    }

    /** True when the request changes state on the appliance. */
    predicate Mutates() {
      InvokeDelete? || InvokePostFiles?
    }
  }

  /** The return object the client hands back from a dispatched call. */
  datatype ReturnObject = ReturnObject(changed: bool, warnings: seq<string>, data: map<string, string>)
}
