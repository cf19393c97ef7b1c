/** The errors the registry and the invoker throw, with their exact messages. */
module Errors {

  datatype Error =
    | MethodNotAllowed                  // registerMethod: the verb guard fired
    | PathNotSpecified                  // registerMethod: path is undefined or null
    | MethodExists(name: string)        // registerMethod: the name is already registered
    | TemplateParameterMissing(path: string)  // invocation: a `{...}` survived substitution
  {
    /** The text of the thrown `Error`. */
    function Message(): string {
      match this
      case MethodNotAllowed => "Method not allowed. Use GET, POST, PUT or DELETE."
      case PathNotSpecified => "Path is not specified"
      case MethodExists(name) => "Methods already exists: " + name
      case TemplateParameterMissing(path) => "Template parameter is missing: " + path
    }
  }
}
