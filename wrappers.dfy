// Option and Result, plus the exceptions the library throws, as values.

module Wrappers {

  datatype Option<T> = None | Some(value: T)
  {
    function GetOr(default: T): T
    {
      if Some? then value else default
    }
  }

  /** The .NET exception types the library raises. */
  datatype ExceptionType =
    | ArgumentException
    | ArgumentNullException
    | ArgumentOutOfRangeException
    | InvalidOperationException
    | NotImplementedException
    /** SnapTestException, the library's base exception. */
    | SnapTestException
    /** SnapTestParseException, for snapshot text and paths that cannot be interpreted. */
    | SnapTestParseException
    /** Newtonsoft's JsonException for a path its JSONPath parser rejects. */
    | JsonException

  /** Each way the library fails, with what identifies that occurrence. */
  datatype Error =
    /** A null argument, by parameter name. */
    | ArgumentNull(parameter: string)
    /** A blank snapshot group: the setter's `value` is out of range. */
    | BlankSnapshotGroup
    /** A blank snapshot name when a file path is derived. */
    | BlankSnapshotName
    /** SnapshotValue.Add on a value that is not an object. */
    | AddToNonObject
    /** JObject.Add under a key the object already has. */
    | DuplicateProperty(name: string)
    /** Removing a member that has already been removed from its object. */
    | ParentMissing
    /** SnapshotValue.RemovePaths: an exclude path matched the root. */
    | RootExcluded(path: string)
    /** Snapshot.RemoveExcludedPaths: an exclude path matched the root. */
    | ExcludedPathsMatchedRoot(path: string)
    /** The serializer middleware: an exclude path matched the root. */
    | MiddlewareExcludedRoot(path: string)
    /** A JSONPath outside the dialect the parser accepts. */
    | PathSyntax(path: string)
    /** A snapshot file whose contents are not JSON. */
    | UnparsableSnapshot(file: string)
    /** A grouped snapshot file whose root is not an object. */
    | NotASnapshotGroup(file: string)
    /** SnapshotContext.Expected read before being set. */
    | ExpectedUnknown
    /** The writing middleware given something other than a string; `producedNull` tells which of its two wordings applies. */
    | NonStringPayload(producedNull: bool, typeName: string)

  /** The exception type raised for each error. */
  function TypeOf(e: Error): ExceptionType
  {
    match e
    case ArgumentNull(_) => ArgumentNullException
    case BlankSnapshotGroup => ArgumentOutOfRangeException
    case BlankSnapshotName => ArgumentOutOfRangeException
    case AddToNonObject => InvalidOperationException
    case DuplicateProperty(_) => ArgumentException
    case ParentMissing => InvalidOperationException
    case RootExcluded(_) => SnapTestParseException
    case ExcludedPathsMatchedRoot(_) => SnapTestParseException
    case MiddlewareExcludedRoot(_) => SnapTestException
    case PathSyntax(_) => JsonException
    case UnparsableSnapshot(_) => SnapTestParseException
    case NotASnapshotGroup(_) => SnapTestParseException
    case ExpectedUnknown => InvalidOperationException
    case NonStringPayload(_, _) => NotImplementedException
  }

  /** The message the library writes for the exceptions it raises itself; .NET and Newtonsoft word the others. */
  function MessageOf(e: Error): Option<string>
  {
    match e
    case BlankSnapshotGroup => Some("SnapshotGroup must either be null, or contain at least one non-whitespace character")
    case BlankSnapshotName => Some("Test name must be specified in order to determine snapshot file name")
    case AddToNonObject => Some("Add can only be called for SnapshotValues that represent an object")
    case RootExcluded(p) =>
      Some("Excluded JSON Path '" + p + "' matched root token of the result. The entire result cannot be excluded from a snapshot match.")
    case ExcludedPathsMatchedRoot(p) =>
      Some("JsonPath '" + p + "' in ExcludedPaths matched root token of the result. You cannot exclude the entire result.")
    case MiddlewareExcludedRoot(p) =>
      Some("JsonPath '" + p + "' in ExcludedPaths matched root token of the result. You cannot exclude the entire result.")
    case UnparsableSnapshot(f) => Some("Unable to read and parse contents of file as JSON: " + f)
    case NotASnapshotGroup(f) => Some("File does not contain JSON object representing a snapshot group: " + f)
    case ExpectedUnknown => Some("Expected cannot be accessed until it has been explicitly set")
    case NonStringPayload(producedNull, t) =>
      Some("The snapshot middleware pipeline has produced a "
      + (if producedNull then "null value" else "value of type " + t)
      + " for writing to file storage, but FileStorageWritingMiddleware currently only supports writing non-null string data. "
      + "This may indicate a problem with your middleware pipeline.")
    case _ => None
  }

  datatype Result<T> = Ok(value: T) | Err(error: Error)
}
