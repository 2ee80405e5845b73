/** `load_abi_from_file`: recognising the ABI inside a contract JSON file (a
    bare array, or an object with an "abi" member) and the errors it raises. */
module AbiAdapter {
  import opened Wrappers
  import opened Json

  /** What opening and parsing the file gives. */
  datatype AbiFile =
    | Missing                   // open raises FileNotFoundError
    | BadJson                   // json.load raises JSONDecodeError
    | Unreadable(reason: string) // any other error while reading, with its text
    | Parsed(content: Json)

  /** The exception `load_abi_from_file` lets out. */
  datatype AbiError = FileNotFoundError | JsonDecodeError | ValueError(message: string)

  const FAILED_PREFIX := "Failed to load ABI: "

  /** The ABI a parsed file holds, if its shape is recognised. An object is
      recognised by its "abi" member alone: the Hardhat test that follows in
      the source asks for "abi" too, so it never decides anything. */
  function DetectAbi(content: Json): (r: Option<Json>)
    ensures content.Arr? ==> r == Some(content)
    ensures content.Obj? ==> (r.Some? <==> "abi" in content.fields)
    ensures content.Obj? && "abi" in content.fields ==> r == Some(content.fields["abi"])
    ensures !content.Arr? && !content.Obj? ==> r.None?
  {
    match content
    case Arr(_) => Some(content)
    case Obj(fields) => if "abi" in fields then Some(fields["abi"]) else None
    case _ => None
  }

  /** `load_abi_from_file(path)`. The "Unrecognized ABI format" error is raised
      inside the try block, so the generic handler re-wraps it. */
  function LoadAbiFromFile(path: string, file: AbiFile): (r: Result<Json, AbiError>)
    ensures file.Missing? ==> r == Err(FileNotFoundError)
    ensures file.BadJson? ==> r == Err(JsonDecodeError)
    ensures file.Unreadable? ==> r == Err(ValueError(FAILED_PREFIX + file.reason))
    ensures file.Parsed? && DetectAbi(file.content).Some? ==> r == Ok(DetectAbi(file.content).value)
    ensures file.Parsed? && DetectAbi(file.content).None?
            ==> r == Err(ValueError(FAILED_PREFIX + "Unrecognized ABI format in " + path))
  {
    match file
    case Missing => Err(FileNotFoundError)
    case BadJson => Err(JsonDecodeError)
    case Unreadable(reason) => Err(ValueError(FAILED_PREFIX + reason))
    case Parsed(content) =>
      match DetectAbi(content)
      case Some(abi) => Ok(abi)
      case None => Err(ValueError(FAILED_PREFIX + "Unrecognized ABI format in " + path))
  }

  /** Every ValueError that escapes carries the "Failed to load ABI: " prefix;
      the other two errors keep their own types. */
  lemma ValueErrorsAreWrapped(path: string, file: AbiFile)
    requires LoadAbiFromFile(path, file).Err? && LoadAbiFromFile(path, file).error.ValueError?
    ensures var m := LoadAbiFromFile(path, file).error.message;
            |m| >= |FAILED_PREFIX| && m[..|FAILED_PREFIX|] == FAILED_PREFIX
  {
  }

  /** For an object the outcome depends only on its "abi" member: two objects
      that agree on it load the same, whatever else (such as "contractName")
      they hold. */
  lemma ObjectDependsOnlyOnAbi(path: string, f: map<string, Json>, g: map<string, Json>)
    requires ("abi" in f <==> "abi" in g) && ("abi" in f ==> f["abi"] == g["abi"])
    ensures LoadAbiFromFile(path, Parsed(Obj(f))) == LoadAbiFromFile(path, Parsed(Obj(g)))
  {
  }

  /** A file that loads successfully is an array, returned unchanged, or an
      object whose "abi" member is returned. */
  lemma LoadedAbiShape(path: string, file: AbiFile)
    requires LoadAbiFromFile(path, file).Ok?
    ensures file.Parsed?
    ensures var abi := LoadAbiFromFile(path, file).value;
            (file.content.Arr? && abi == file.content)
            || (file.content.Obj? && "abi" in file.content.fields && abi == file.content.fields["abi"])
  {
  }
}
