/** Workspace paths and document keys: a key must never name anything outside the workspace root. */
module Keys {

  const KEY_PREFIX := "path/"

  /** Text from the file system or from a peer, which need not be UTF-8. */
  datatype Text = Utf8(text: string) | NotUtf8

  datatype Component = Normal(name: Text) | CurDir | ParentDir | RootDir

  /** Every failure is the same error with a different message. */
  datatype Result<T> = Ok(value: T) | InvalidPath

  // ---- Splitting and joining ----

  function Split(s: string): (segments: seq<string>)
    ensures segments != [] && forall i :: 0 <= i < |segments| ==> '/' !in segments[i]
  {
    if s == "" then [""]
    else
      var rest := Split(s[1..]);
      if s[0] == '/' then [""] + rest else [[s[0]] + rest[0]] + rest[1..]
  }

  function Join(parts: seq<string>): string {
    if parts == [] then "" else if |parts| == 1 then parts[0] else parts[0] + "/" + Join(parts[1..])
  }

  lemma {:induction false} SplitPart(x: string)
    requires '/' !in x
    ensures Split(x) == [x]
  {
    if x != "" {
      SplitPart(x[1..]);
      assert x == [x[0]] + x[1..];
    }
  }

  lemma {:induction false} SplitSlash(x: string, rest: string)
    requires '/' !in x
    ensures Split(x + "/" + rest) == [x] + Split(rest)
  {
    var s := x + "/" + rest;
    if x == "" {
      assert s[1..] == rest;
    } else {
      SplitSlash(x[1..], rest);
      assert s[1..] == x[1..] + "/" + rest;
      assert x == [x[0]] + x[1..];
    }
  }

  lemma {:induction false} SplitJoin(parts: seq<string>)
    requires parts != [] && forall i :: 0 <= i < |parts| ==> '/' !in parts[i]
    ensures Split(Join(parts)) == parts
  {
    if |parts| == 1 {
      SplitPart(parts[0]);
    } else {
      SplitJoin(parts[1..]);
      SplitSlash(parts[0], Join(parts[1..]));
    }
  }

  // ---- Components ----

  /** A segment that is a file or directory name. */
  predicate Name(x: string) { x != "" && '/' !in x && x != "." && x != ".." }

  predicate Names(parts: seq<string>) { forall i :: 0 <= i < |parts| ==> Name(parts[i]) }

  function Body(segments: seq<string>): seq<Component> {
    if segments == [] then []
    else
      var x := segments[0];
      (if x == "" || x == "." then [] else if x == ".." then [ParentDir] else [Normal(Utf8(x))]) + Body(segments[1..])
  }

  /** Empty segments vanish, and so does "." everywhere but at the very start. */
  function Components(rel: string): seq<Component> {
    (if rel != "" && rel[0] == '/' then [RootDir] else if Split(rel)[0] == "." then [CurDir] else []) + Body(Split(rel))
  }

  function JoinPath(root: seq<Component>, rel: string): seq<Component> {
    if root == [] then Components(rel) else root + Body(Split(rel))
  }

  /** The segments that name something. */
  function Real(segments: seq<string>): seq<string> {
    if segments == [] then []
    else (if segments[0] == "" || segments[0] == "." then [] else [segments[0]]) + Real(segments[1..])
  }

  function Normals(parts: seq<string>): seq<Component> {
    if parts == [] then [] else [Normal(Utf8(parts[0]))] + Normals(parts[1..])
  }

  lemma {:induction false} BodyIsReal(segments: seq<string>)
    requires ".." !in segments
    ensures Body(segments) == Normals(Real(segments))
    ensures forall x :: x in Real(segments) ==> x in segments && x != "" && x != "." && x != ".."
  {
    if segments != [] {
      BodyIsReal(segments[1..]);
      var x, rest := segments[0], Real(segments[1..]);
      if x == "" || x == "." {
        assert Real(segments) == rest && Body(segments) == Body(segments[1..]);
      } else {
        assert Real(segments) == [x] + rest && Real(segments)[1..] == rest;
        assert x != "..";
      }
    }
  }

  lemma {:induction false} BodyHasParent(segments: seq<string>)
    ensures ParentDir in Body(segments) <==> ".." in segments
    ensures RootDir !in Body(segments) && CurDir !in Body(segments)
  {
    if segments != [] { BodyHasParent(segments[1..]); }
  }

  lemma {:induction false} RealOfNames(parts: seq<string>)
    requires Names(parts)
    ensures Real(parts) == parts
  {
    if parts != [] {
      RealOfNames(parts[1..]);
      assert parts == [parts[0]] + parts[1..];
    }
  }

  // ---- The two translations ----

  predicate Plain(c: Component) { c.CurDir? || (c.Normal? && c.name.Utf8?) }

  /** The normalised names, or an error at the first component that is not one. */
  function Parts(nfc: string -> string, rel: seq<Component>): Result<seq<string>> {
    if rel == [] then Ok([])
    else
      var front, c := Parts(nfc, rel[..|rel| - 1]), rel[|rel| - 1];
      if front.InvalidPath? || !Plain(c) then InvalidPath
      else if c.CurDir? then front
      else Ok(front.value + [nfc(c.name.text)])
  }

  function PathToKey(nfc: string -> string, root: seq<Component>, path: seq<Component>): Result<string> {
    if !(root <= path) then InvalidPath
    else match Parts(nfc, path[|root|..])
      case InvalidPath => InvalidPath
      case Ok(parts) => Ok(KEY_PREFIX + Join(parts))
  }

  lemma {:induction false} PartsFailEarly(nfc: string -> string, rel: seq<Component>, n: nat)
    requires n <= |rel| && Parts(nfc, rel[..n]).InvalidPath?
    ensures Parts(nfc, rel).InvalidPath?
  {
    if n < |rel| {
      assert rel[..|rel| - 1][..n] == rel[..n];
      PartsFailEarly(nfc, rel[..|rel| - 1], n);
    } else {
      assert rel[..n] == rel;
    }
  }

  method EncodePath(nfc: string -> string, root: seq<Component>, path: seq<Component>) returns (r: Result<string>)
    ensures r == PathToKey(nfc, root, path)
  {
    if !(root <= path) { return InvalidPath; }
    var rel := path[|root|..];
    var parts: seq<string> := [];
    for i := 0 to |rel|
      invariant Parts(nfc, rel[..i]) == Ok(parts)
    {
      assert rel[..i + 1][..i] == rel[..i];
      match rel[i]
      case Normal(Utf8(s)) => parts := parts + [nfc(s)];
      case Normal(NotUtf8) => PartsFailEarly(nfc, rel, i + 1); return InvalidPath;
      case CurDir =>
      case ParentDir => PartsFailEarly(nfc, rel, i + 1); return InvalidPath;
      case RootDir => PartsFailEarly(nfc, rel, i + 1); return InvalidPath;
    }
    assert rel[..|rel|] == rel;
    r := Ok(KEY_PREFIX + Join(parts));
  }

  predicate AsciiAlphabetic(c: char) { 'a' <= c <= 'z' || 'A' <= c <= 'Z' }

  predicate WindowsDrive(s: string) { |s| >= 2 && AsciiAlphabetic(s[0]) && s[1] == ':' }

  /** Text that may not begin the relative part of a key. */
  predicate BadStart(s: string) { (s != "" && (s[0] == '/' || s[0] == '\\')) || WindowsDrive(s) }

  function KeyToPath(root: seq<Component>, key: Text): Result<seq<Component>> {
    if key.NotUtf8? || !(KEY_PREFIX <= key.text) then InvalidPath
    else
      var rel := key.text[|KEY_PREFIX|..];
      var components := Components(rel);
      if BadStart(rel) || ".." in Split(rel) then InvalidPath
      else if ParentDir in components || RootDir in components then InvalidPath
      else if forall c :: c in components ==> !c.Normal? then InvalidPath
      else Ok(JoinPath(root, rel))
  }

  method FindParent(segments: seq<string>) returns (found: bool)
    ensures found <==> ".." in segments
  {
    for i := 0 to |segments|
      invariant ".." !in segments[..i]
    {
      if segments[i] == ".." { return true; }
    }
    return false;
  }

  /** Counts the names, or refuses at the first component that leaves the root. */
  method CountNames(components: seq<Component>) returns (normal: Result<nat>)
    ensures normal.InvalidPath? <==> ParentDir in components || RootDir in components
    ensures normal.Ok? ==> (normal.value == 0 <==> forall c :: c in components ==> !c.Normal?)
  {
    var n := 0;
    for i := 0 to |components|
      invariant ParentDir !in components[..i] && RootDir !in components[..i]
      invariant n == 0 <==> forall c :: c in components[..i] ==> !c.Normal?
    {
      match components[i]
      case ParentDir => return InvalidPath;
      case RootDir => return InvalidPath;
      case Normal(_) =>
        assert components[i] in components[..i + 1];
        n := n + 1;
      case CurDir =>
    }
    assert components[..|components|] == components;
    normal := Ok(n);
  }

  method DecodeKey(root: seq<Component>, key: Text) returns (r: Result<seq<Component>>)
    ensures r == KeyToPath(root, key)
  {
    if key.NotUtf8? || !(KEY_PREFIX <= key.text) { return InvalidPath; }
    var rel := key.text[|KEY_PREFIX|..];
    if rel != "" && (rel[0] == '/' || rel[0] == '\\') { return InvalidPath; }
    if WindowsDrive(rel) { return InvalidPath; }
    var parent := FindParent(Split(rel));
    if parent { return InvalidPath; }
    var normal := CountNames(Components(rel));
    if normal.InvalidPath? || normal.value == 0 { return InvalidPath; }
    r := Ok(JoinPath(root, rel));
  }

  // ---- What is accepted ----

  lemma RealExists(segments: seq<string>)
    requires ".." !in segments
    ensures Real(segments) == [] <==> forall c :: c in Body(segments) ==> !c.Normal?
  {
    BodyIsReal(segments);
    var parts := Real(segments);
    if parts != [] { assert Normals(parts)[0] in Body(segments); }
  }

  lemma AcceptedForm(root: seq<Component>, key: Text)
    ensures KeyToPath(root, key).Ok? <==>
              key.Utf8? && KEY_PREFIX <= key.text &&
              var rel := key.text[|KEY_PREFIX|..];
              !BadStart(rel) && ".." !in Split(rel) && Real(Split(rel)) != []
  {
    if key.Utf8? && KEY_PREFIX <= key.text {
      var rel := key.text[|KEY_PREFIX|..];
      var segments := Split(rel);
      BodyHasParent(segments);
      if ".." !in segments && !BadStart(rel) {
        RealExists(segments);
        forall c | c in Components(rel) && c.Normal? ensures c in Body(segments) { }
        forall c | c in Body(segments) ensures c in Components(rel) { }
      }
    }
  }

  predicate SomeName(segments: seq<string>) { exists x :: x in segments && x != "" && x != "." }

  lemma {:induction false} RealNonempty(segments: seq<string>)
    ensures Real(segments) != [] <==> SomeName(segments)
  {
    if segments != [] {
      var first, rest := segments[0], segments[1..];
      RealNonempty(rest);
      assert segments == [first] + rest && first in segments;
      if SomeName(rest) { var x :| x in rest && x != "" && x != "."; assert x in segments; }
      if SomeName(segments) && (first == "" || first == ".") {
        var x :| x in segments && x != "" && x != ".";
        assert x in rest;
      }
    }
  }

  /** A key is accepted exactly when, after the prefix, it starts with no slash, no backslash and no drive letter with
      a colon, never says "..", and names something. The second walk over the components turns nothing more away. */
  lemma AcceptedIff(root: seq<Component>, key: Text)
    ensures KeyToPath(root, key).Ok? <==>
              && key.Utf8? && "path/" <= key.text
              && var rel := key.text[5..];
                 && (rel != "" ==> rel[0] != '/' && rel[0] != '\\')
                 && !(|rel| >= 2 && rel[1] == ':' && ('a' <= rel[0] <= 'z' || 'A' <= rel[0] <= 'Z'))
                 && ".." !in Split(rel) && SomeName(Split(rel))
  {
    AcceptedForm(root, key);
    if key.Utf8? && KEY_PREFIX <= key.text { RealNonempty(Split(key.text[|KEY_PREFIX|..])); }
  }

  /** A leading "." survives only in a path that has nothing before it. */
  function Lead(root: seq<Component>, rel: string): seq<Component> {
    if root == [] && Split(rel)[0] == "." then [CurDir] else []
  }

  /** An accepted key names a path strictly under the root, reached through ordinary names only. */
  lemma AcceptedStaysUnderRoot(root: seq<Component>, key: Text)
    requires KeyToPath(root, key).Ok?
    ensures var path := KeyToPath(root, key).value;
            var rel := key.text[|KEY_PREFIX|..];
            var parts := Real(Split(rel));
            && path == root + (Lead(root, rel) + Normals(parts))
            && parts != [] && Names(parts)
            && ParentDir !in path[|root|..] && RootDir !in path[|root|..]
  {
    AcceptedForm(root, key);
    var segments := Split(key.text[|KEY_PREFIX|..]);
    BodyIsReal(segments);
    BodyHasParent(segments);
    var parts := Real(segments);
    forall i | 0 <= i < |parts| ensures Name(parts[i]) { assert parts[i] in parts; }
  }

  // ---- Round trips ----

  /** Canonical composition: idempotent, and never turning a name into something that is not one. */
  ghost predicate Normaliser(nfc: string -> string) {
    forall x :: nfc(nfc(x)) == nfc(x) && (Name(x) ==> Name(nfc(x)))
  }

  function Mapped(nfc: string -> string, parts: seq<string>): seq<string> {
    if parts == [] then [] else [nfc(parts[0])] + Mapped(nfc, parts[1..])
  }

  lemma {:induction false} MappedNames(nfc: string -> string, parts: seq<string>)
    requires Normaliser(nfc) && Names(parts)
    ensures Names(Mapped(nfc, parts)) && Mapped(nfc, Mapped(nfc, parts)) == Mapped(nfc, parts)
    ensures |Mapped(nfc, parts)| == |parts|
  {
    if parts != [] {
      MappedNames(nfc, parts[1..]);
      assert Name(parts[0]);
      assert nfc(nfc(parts[0])) == nfc(parts[0]);
    }
  }

  lemma {:induction false} PartsOfNormals(nfc: string -> string, parts: seq<string>)
    ensures Parts(nfc, Normals(parts)) == Ok(Mapped(nfc, parts))
  {
    if parts != [] {
      var front, last := parts[..|parts| - 1], parts[|parts| - 1];
      PartsOfNormals(nfc, front);
      Snoc(nfc, front, last);
      assert parts == front + [last];
      var all := Normals(parts);
      assert all[..|all| - 1] == Normals(front);
    }
  }

  lemma {:induction false} Snoc(nfc: string -> string, front: seq<string>, last: string)
    ensures Normals(front + [last]) == Normals(front) + [Normal(Utf8(last))]
    ensures Mapped(nfc, front + [last]) == Mapped(nfc, front) + [nfc(last)]
  {
    if front != [] {
      Snoc(nfc, front[1..], last);
      assert (front + [last])[1..] == front[1..] + [last];
    }
  }

  /** Whether joined names may begin a key depends on the first name alone. */
  lemma StartOfJoin(parts: seq<string>)
    requires Names(parts) && parts != []
    ensures BadStart(Join(parts)) <==> BadStart(parts[0])
  {
    var x := parts[0];
    assert Name(x);
    if |parts| > 1 {
      assert Join(parts) == x + ("/" + Join(parts[1..]));
      assert |x| == 1 ==> Join(parts)[1] == '/';
    }
  }

  lemma SplitNames(parts: seq<string>)
    requires Names(parts) && parts != []
    ensures Split(Join(parts)) == parts && Real(parts) == parts && ".." !in parts && parts[0] != "."
  {
    forall i | 0 <= i < |parts| ensures '/' !in parts[i] && parts[i] != ".." && parts[i] != "." {
        assert Name(parts[i]); }
    SplitJoin(parts);
    RealOfNames(parts);
  }

  lemma DecodeNames(root: seq<Component>, parts: seq<string>)
    requires Names(parts)
    ensures KeyToPath(root, Utf8(KEY_PREFIX + Join(parts))) ==
              if parts != [] && !BadStart(parts[0]) then Ok(root + Normals(parts)) else InvalidPath
  {
    var key := Utf8(KEY_PREFIX + Join(parts));
    assert key.text[|KEY_PREFIX|..] == Join(parts);
    AcceptedForm(root, key);
    if parts == [] {
      assert Split("") == [""] && Real([""]) == [];
    } else {
      SplitNames(parts);
      StartOfJoin(parts);
      if !BadStart(parts[0]) {
        AcceptedStaysUnderRoot(root, key);
        assert [] + Normals(parts) == Normals(parts);
      }
    }
  }

  lemma {:induction false} PartsSkipDot(nfc: string -> string, rel: seq<Component>)
    ensures Parts(nfc, [CurDir] + rel) == Parts(nfc, rel)
  {
    var all := [CurDir] + rel;
    if rel == [] {
      assert all[..0] == [];
    } else {
      PartsSkipDot(nfc, rel[..|rel| - 1]);
      assert all[..|all| - 1] == [CurDir] + rel[..|rel| - 1];
    }
  }

  lemma EncodeNames(nfc: string -> string, root: seq<Component>, parts: seq<string>)
    ensures PathToKey(nfc, root, root + Normals(parts)) == Ok(KEY_PREFIX + Join(Mapped(nfc, parts)))
  {
    assert (root + Normals(parts))[|root|..] == Normals(parts);
    PartsOfNormals(nfc, parts);
  }

  /** Encoding a path below the root and decoding it gives back the path with its names normalised, exactly
      when there is a name and the first, once normalised, has no leading backslash or drive form;
      otherwise the key is refused. */
  lemma RoundTripIff(nfc: string -> string, root: seq<Component>, parts: seq<string>)
    requires Normaliser(nfc) && Names(parts)
    ensures var key := PathToKey(nfc, root, root + Normals(parts));
            && key.Ok?
            && KeyToPath(root, Utf8(key.value)) ==
                 if parts != [] && !BadStart(nfc(parts[0])) then Ok(root + Normals(Mapped(nfc, parts))) else InvalidPath
  {
    EncodeNames(nfc, root, parts);
    MappedNames(nfc, parts);
    DecodeNames(root, Mapped(nfc, parts));
  }

  /** For names already normalised the decoder inverts the encoder. */
  lemma NormalisedRoundTrip(nfc: string -> string, root: seq<Component>, parts: seq<string>)
    requires Normaliser(nfc) && Names(parts) && Mapped(nfc, parts) == parts
    ensures var path := root + Normals(parts);
            var key := PathToKey(nfc, root, path);
            key.Ok? && (KeyToPath(root, Utf8(key.value)) == Ok(path) <==> parts != [] && !BadStart(parts[0]))
  {
    RoundTripIff(nfc, root, parts);
  }

  /** The key a key stands for: decoded, then encoded again. */
  function Normalised(nfc: string -> string, root: seq<Component>, key: Text): Result<string> {
    match KeyToPath(root, key)
    case InvalidPath => InvalidPath
    case Ok(path) => PathToKey(nfc, root, path)
  }

  /** Re-encoding an accepted key drops its empty and "." segments and normalises the rest. Doing it twice
      is doing it once, exactly when the first name that is left may begin a key; otherwise the normal form
      of an accepted key is itself refused. */
  lemma NormalisesOnce(nfc: string -> string, root: seq<Component>, key: Text)
    requires Normaliser(nfc) && KeyToPath(root, key).Ok?
    ensures var parts := Mapped(nfc, Real(Split(key.text[|KEY_PREFIX|..])));
            var once := Normalised(nfc, root, key);
            && parts != [] && once == Ok(KEY_PREFIX + Join(parts))
            && Normalised(nfc, root, Utf8(once.value)) == if BadStart(parts[0]) then InvalidPath else once
  {
    var names := Real(Split(key.text[|KEY_PREFIX|..]));
    AcceptedStaysUnderRoot(root, key);
    AcceptedForm(root, key);
    var path := KeyToPath(root, key).value;
    assert path[|root|..] == Lead(root, key.text[|KEY_PREFIX|..]) + Normals(names);
    PartsSkipDot(nfc, Normals(names));
    PartsOfNormals(nfc, names);
    assert [] + Normals(names) == Normals(names);
    MappedNames(nfc, names);
    var parts := Mapped(nfc, names);
    DecodeNames(root, parts);
    EncodeNames(nfc, root, parts);
  }

  /** Hidden behind a "." segment, a name that may not begin a key is accepted, and refused once the key is
      normalised: "path/./\x" becomes "path/\x". */
  lemma AcceptedWithRefusedNormalForm(nfc: string -> string, root: seq<Component>, x: string)
    requires Normaliser(nfc) && Name(x) && BadStart(nfc(x))
    ensures var key := Utf8(KEY_PREFIX + ("." + "/" + x));
            && KeyToPath(root, key).Ok?
            && Normalised(nfc, root, key) == Ok(KEY_PREFIX + nfc(x))
            && KeyToPath(root, Utf8(KEY_PREFIX + nfc(x))).InvalidPath?
  {
    var rel := "." + "/" + x;
    var key := Utf8(KEY_PREFIX + rel);
    assert key.text[|KEY_PREFIX|..] == rel;
    HiddenSegments(x);
    AcceptedForm(root, key);
    NormalisesOnce(nfc, root, key);
    assert Mapped(nfc, [x]) == [nfc(x)];
    DecodeNames(root, [nfc(x)]);
  }

  lemma HiddenSegments(x: string)
    requires Name(x)
    ensures Split("." + "/" + x) == [".", x] && Real([".", x]) == [x] && !BadStart("." + "/" + x)
  {
    SplitSlash(".", x);
    SplitPart(x);
    assert [".", x][1..] == [x] && Real([x]) == [x];
  }
}
