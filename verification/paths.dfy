/**
 * Relative file paths as sequences of components. Joining is lexical
 * (`..` stays a component); nothing is normalised against the file system.
 */
module Paths {
  import opened Base
  import opened Strings

  type Path = seq<string>

  /** A component `PathBuf` keeps when it parses a relative path string. */
  predicate IsComponent(c: string)
  {
    c != "" && c != "." && '/' !in c
  }

  /** The path built by pushing every directory of a directory stack onto an empty `PathBuf`. */
  function Flatten(dirs: seq<Path>): Path
  {
    if |dirs| == 0 then [] else dirs[0] + Flatten(dirs[1..])
  }

  lemma {:induction false} FlattenSnoc(dirs: seq<Path>, d: Path)
    ensures Flatten(dirs + [d]) == Flatten(dirs) + d
  {
    if |dirs| == 0 {
      assert dirs + [d] == [d];
    } else {
      assert (dirs + [d])[1..] == dirs[1..] + [d];
      FlattenSnoc(dirs[1..], d);
    }
  }

  /** `Path::parent`: every component but the last, and none for the empty path. */
  function Parent(p: Path): (r: Option<Path>)
    ensures r.None? <==> |p| == 0
    ensures r.Some? ==> r.value + [p[|p| - 1]] == p
  {
    if |p| == 0 then None else Some(p[..|p| - 1])
  }

  function Components(parts: seq<string>): (r: Path)
    ensures forall i :: 0 <= i < |r| ==> IsComponent(r[i])
    ensures forall c :: c in r <==> c in parts && IsComponent(c)
  {
    if |parts| == 0 then []
    else if IsComponent(parts[0]) then [parts[0]] + Components(parts[1..])
    else Components(parts[1..])
  }

  /**
   * `PathBuf::from(s)` for a relative path, as a list of components: split
   * at `/`, dropping empty and `.` segments. Rust drops an interior `.` too
   * but keeps a leading one as `Component::CurDir`; that case is not modelled
   * here, so `./x.rs` and `x.rs` give the same path.
   */
  function PathFromString(s: string): (p: Path)
    ensures forall i :: 0 <= i < |p| ==> IsComponent(p[i])
  {
    Components(SplitOn(s, "/"))
  }

  function PathToString(p: Path): string
  {
    Join(p, "/")
  }

  lemma {:induction false} ComponentsOfComponents(p: Path)
    requires forall i :: 0 <= i < |p| ==> IsComponent(p[i])
    ensures Components(p) == p
  {
    if |p| > 0 {
      ComponentsOfComponents(p[1..]);
      assert [p[0]] + p[1..] == p;
    }
  }

  /** Rendering a path and parsing it back gives the same components. */
  lemma PathStringRoundTrip(p: Path)
    requires forall i :: 0 <= i < |p| ==> IsComponent(p[i])
    ensures PathFromString(PathToString(p)) == p
  {
    if |p| == 0 {
      assert SplitOn("", "/") == [""];
    } else {
      SplitJoin(p, "/");
      ComponentsOfComponents(p);
    }
  }
}
