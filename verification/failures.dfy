/** The Python exceptions that the modelled code raises or catches, as data. */
module Failures {

  datatype Failure =
    | KeyError(key: string)                  // a dict lookup of a missing key
    | AttributeError(name: string)           // a missing attribute or method
    | NotImplemented                         // an abstract provider method left unimplemented
    | DoesNotExist(what: string)             // an ORM `get` that matched nothing
    | MultipleObjectsReturned(what: string)  // an ORM `get` that matched several rows
    | IntegrityError(what: string)           // a duplicate primary key
    | TypeError(msg: string)
    | ValueError(msg: string)
    | IndexError(msg: string)
    | ProviderException(msg: string)
    | FetchError(msg: string)                // a network or parse failure of a fetch
    | HttpError(code: int)                   // an HTTP failure carrying its status code
    | SyntaxError(msg: string)               // a fetched document that does not parse
    | TemplateSyntaxError(msg: string)
    | ImportError(path: string)
    | NameError(name: string)                // a name used before it is defined
    | Interrupted                            // KeyboardInterrupt or SystemExit, never swallowed
}
