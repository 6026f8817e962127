/**
 * The backend's entry point `process_3d_file`: the file's lower-cased suffix picks the
 * reader. `.stl` goes to the STL reader, `.obj` to the OBJ reader, `.step`/`.stp` and
 * `.iges`/`.igs` to the CAD import, and anything else gets an "Unsupported file format"
 * error. The suffix is computed as POSIX `pathlib` does it.
 */
module FileDispatch {
  import opened Wrappers
  import opened Text

  /** Where `process_3d_file` sends a file. */
  datatype Route = StlRoute | ObjRoute | StepRoute | IgesRoute | Unsupported(message: string)

  const UnsupportedPrefix: string := "Unsupported file format: "

  /** The components a POSIX path keeps: empty components (from `//` or a trailing `/`) and `.` are dropped. */
  function Components(fields: seq<string>): (cs: seq<string>)
    ensures forall k :: 0 <= k < |cs| ==> cs[k] != [] && cs[k] != "."
  {
    if fields == [] then []
    else (if fields[0] == [] || fields[0] == "." then [] else [fields[0]]) + Components(fields[1..])
  }

  /** `PurePath(path).name`: the last component, or the empty string when there is none. */
  function FileName(path: string): (name: string)
    ensures name != "."
  {
    var cs := Components(SplitOn(path, '/'));
    if cs == [] then [] else cs[|cs| - 1]
  }

  /** `name.rfind('.')`, with `None` for -1. */
  function LastDot(name: string): (r: Option<nat>)
    ensures r.None? ==> '.' !in name
    ensures r.Some? ==> r.value < |name| && name[r.value] == '.' && '.' !in name[r.value + 1..]
  {
    if name == [] then None
    else if name[|name| - 1] == '.' then Some(|name| - 1)
    else
      var r := LastDot(name[..|name| - 1]);
      assert name == name[..|name| - 1] + [name[|name| - 1]];
      r
  }

  /**
   * `PurePath.suffix` as Python 3.13 and earlier compute it: from the last dot to the end,
   * provided that dot is neither the first nor the last character of the name; otherwise
   * empty. (Python 3.14 also gives a name ending in `.` the suffix `.`.)
   */
  function Suffix(name: string): (ext: string)
    ensures ext == [] || (2 <= |ext| < |name| && ext[0] == '.' && '.' !in ext[1..] && ext == name[|name| - |ext|..])
  {
    match LastDot(name)
    case None => []
    case Some(i) => if 0 < i < |name| - 1 then name[i..] else []
  }

  /** The converse of `Suffix`'s contract: a dot after the first character, with no dot after it and something after it, starts the suffix. */
  lemma SuffixAt(name: string, i: nat)
    requires 0 < i < |name| - 1 && name[i] == '.' && '.' !in name[i + 1..]
    ensures Suffix(name) == name[i..]
  {
  }

  /** The route `process_3d_file` takes for `path`. */
  function Dispatch(path: string): Route {
    RouteFor(Lower(Suffix(FileName(path))))
  }

  /** The `if`/`elif` chain on the lower-cased suffix. */
  function RouteFor(ext: string): Route {
    if ext == ".stl" then StlRoute
    else if ext == ".obj" then ObjRoute
    else if ext == ".step" || ext == ".stp" then StepRoute
    else if ext == ".iges" || ext == ".igs" then IgesRoute
    else Unsupported(UnsupportedPrefix + ext)
  }

  /**
   * Each reader is reached for its own suffixes, whatever their case, and every other
   * suffix is rejected with a message naming it.
   */
  lemma DispatchSuffix(path: string)
    ensures var ext := Lower(Suffix(FileName(path)));
      && (Dispatch(path) == StlRoute <==> ext == ".stl")
      && (Dispatch(path) == ObjRoute <==> ext == ".obj")
      && (Dispatch(path) == StepRoute <==> ext == ".step" || ext == ".stp")
      && (Dispatch(path) == IgesRoute <==> ext == ".iges" || ext == ".igs")
      && (Dispatch(path).Unsupported? <==> ext !in [".stl", ".obj", ".step", ".stp", ".iges", ".igs"])
      && (Dispatch(path).Unsupported? ==> Dispatch(path).message == UnsupportedPrefix + ext)
  {
    RouteSuffix(Lower(Suffix(FileName(path))));
  }

  lemma RouteSuffix(ext: string)
    ensures RouteFor(ext) == StlRoute <==> ext == ".stl"
    ensures RouteFor(ext) == ObjRoute <==> ext == ".obj"
    ensures RouteFor(ext) == StepRoute <==> ext == ".step" || ext == ".stp"
    ensures RouteFor(ext) == IgesRoute <==> ext == ".iges" || ext == ".igs"
    ensures RouteFor(ext).Unsupported? <==> ext !in [".stl", ".obj", ".step", ".stp", ".iges", ".igs"]
    ensures RouteFor(ext).Unsupported? ==> RouteFor(ext).message == UnsupportedPrefix + ext
  {
  }
}
