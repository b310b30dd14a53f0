/** The lexical path sanitiser. */
module Paths {
  import opened Results

  const MAX_PATH_COMPONENT: nat := 255
  const MAX_RELATIVE_PATH: nat := 4096

  datatype PathError =
    | EmptyPath
    | Backslash
    | AbsolutePath(path: string)
    | NullByte
    | ControlCharacter(c: char)
    | ParentTraversal(path: string)
    | ComponentTooLong(len: nat)
    | WindowsReservedName(path: string)
    | PathTooLong(len: nat)

  // ----- Text -----

  /** The length of a character in UTF-8. */
  function Utf8Length(c: char): nat {
    if (c as int) < 0x80 then 1 else if (c as int) < 0x800 then 2 else if (c as int) < 0x1_0000 then 3 else 4
  }

  function ByteLength(s: string): nat {
    if s == [] then 0 else Utf8Length(s[0]) + ByteLength(s[1..])
  }

  /** The pieces between separators; never empty. */
  function Split(s: string, sep: char): (parts: seq<string>)
    ensures parts != []
  {
    if s == [] then [[]]
    else
      var rest := Split(s[1..], sep);
      if s[0] == sep then [[]] + rest else [[s[0]] + rest[0]] + rest[1..]
  }

  function Join(parts: seq<string>): string {
    if parts == [] then []
    else if |parts| == 1 then parts[0]
    else parts[0] + ['/'] + Join(parts[1..])
  }

  function Upper(s: string): string {
    seq(|s|, i requires 0 <= i < |s| => if 'a' <= s[i] <= 'z' then (s[i] as int - 32) as char else s[i])
  }

  // ----- The rules -----

  predicate DriveLetter(s: string) {
    |s| >= 2 && s[1] == ':' && ('a' <= s[0] <= 'z' || 'A' <= s[0] <= 'Z')
  }

  predicate Control(c: char) {
    c <= '\U{1F}' || c == '\U{7F}'
  }

  /** The first control character, if any. */
  function FirstControl(s: string): (r: Option<char>)
    ensures r == None <==> forall c <- s :: !Control(c)
  {
    if s == [] then None else if Control(s[0]) then Some(s[0]) else FirstControl(s[1..])
  }

  const RESERVED: seq<string> := [
    "CON", "PRN", "AUX", "NUL", "COM1", "COM2", "COM3", "COM4", "COM5", "COM6", "COM7", "COM8", "COM9",
    "LPT1", "LPT2", "LPT3", "LPT4", "LPT5", "LPT6", "LPT7", "LPT8", "LPT9"]

  predicate Reserved(component: string) {
    Upper(Split(component, '.')[0]) in RESERVED
  }

  predicate Skipped(component: string) {
    component == [] || component == "."
  }

  predicate Acceptable(component: string) {
    !Skipped(component) && component != ".." && ByteLength(component) <= MAX_PATH_COMPONENT && !Reserved(component)
  }

  /** What is wrong with the whole input, before it is cut into components. */
  function InputError(input: string): Option<PathError> {
    if input == [] then Some(EmptyPath)
    else if '\\' in input then Some(Backslash)
    else if input[0] == '/' || DriveLetter(input) then Some(AbsolutePath(input))
    else if '\0' in input then Some(NullByte)
    else match FirstControl(input)
      case Some(c) => Some(ControlCharacter(c))
      case None => None
  }

  function ComponentError(component: string, input: string): Option<PathError> {
    if component == ".." then Some(ParentTraversal(input))
    else if ByteLength(component) > MAX_PATH_COMPONENT then Some(ComponentTooLong(ByteLength(component)))
    else if Reserved(component) then Some(WindowsReservedName(input))
    else None
  }

  /** The components that make up the result. */
  function Kept(components: seq<string>): seq<string> {
    if components == [] then []
    else
      var rest := Kept(components[1..]);
      if Skipped(components[0]) then rest else [components[0]] + rest
  }

  function FirstError(components: seq<string>, input: string): Option<PathError> {
    if components == [] then None
    else if Skipped(components[0]) then FirstError(components[1..], input)
    else match ComponentError(components[0], input)
      case Some(e) => Some(e)
      case None => FirstError(components[1..], input)
  }

  function Sanitize(input: string): Result<string, PathError> {
    match InputError(input)
    case Some(e) => Err(e)
    case None =>
      var components := Split(input, '/');
      match FirstError(components, input)
      case Some(e) => Err(e)
      case None =>
        var kept := Kept(components);
        if kept == [] then Err(EmptyPath)
        else if ByteLength(Join(kept)) > MAX_RELATIVE_PATH then Err(PathTooLong(ByteLength(Join(kept))))
        else Ok(Join(kept))
  }

  method SanitizePath(input: string) returns (r: Result<string, PathError>)
    ensures r == Sanitize(input)
  {
    if input == [] {
      return Err(EmptyPath);
    }
    if '\\' in input {
      return Err(Backslash);
    }
    if input[0] == '/' {
      return Err(AbsolutePath(input));
    }
    if |input| >= 2 && input[1] == ':' && ('a' <= input[0] <= 'z' || 'A' <= input[0] <= 'Z') {
      return Err(AbsolutePath(input));
    }
    if '\0' in input {
      return Err(NullByte);
    }
    var control := FirstControl(input);
    if control.Some? {
      return Err(ControlCharacter(control.value));
    }
    var components := Split(input, '/');
    var normalized: seq<string> := [];
    var i := 0;
    assert components[0..] == components && [] + Kept(components) == Kept(components);
    while i < |components|
      invariant i <= |components|
      invariant FirstError(components, input) == FirstError(components[i..], input)
      invariant Kept(components) == normalized + Kept(components[i..])
    {
      var component := components[i];
      assert components[i..][1..] == components[i + 1..];
      i := i + 1;
      if component == [] || component == "." {
        continue;
      }
      if component == ".." {
        return Err(ParentTraversal(input));
      }
      if ByteLength(component) > MAX_PATH_COMPONENT {
        return Err(ComponentTooLong(ByteLength(component)));
      }
      if Reserved(component) {
        return Err(WindowsReservedName(input));
      }
      assert normalized + ([component] + Kept(components[i..])) == normalized + [component] + Kept(components[i..]);
      normalized := normalized + [component];
    }
    assert Kept(components) == normalized;
    if normalized == [] {
      return Err(EmptyPath);
    }
    var path := Join(normalized);
    if ByteLength(path) > MAX_RELATIVE_PATH {
      return Err(PathTooLong(ByteLength(path)));
    }
    return Ok(path);
  }

  // ----- Splitting and joining -----

  predicate NoSlash(parts: seq<string>) {
    forall p <- parts :: '/' !in p
  }

  lemma {:induction false} SplitHasNoSlash(s: string)
    ensures NoSlash(Split(s, '/'))
  {
    if s != [] {
      SplitHasNoSlash(s[1..]);
      var rest := Split(s[1..], '/');
      assert rest[0] in rest;
      assert forall p <- rest[1..] :: p in rest;
    }
  }

  lemma SplitAfterSlash(rest: string)
    ensures Split(['/'] + rest, '/') == [[]] + Split(rest, '/')
  {
    assert (['/'] + rest)[1..] == rest;
  }

  lemma {:induction false} SplitFirst(part: string, rest: string)
    requires '/' !in part
    ensures Split(part + ['/'] + rest, '/') == [part] + Split(rest, '/')
  {
    if part == [] {
      assert part + ['/'] + rest == ['/'] + rest;
      SplitAfterSlash(rest);
    } else {
      var s := part + ['/'] + rest;
      assert s[0] == part[0] && s[1..] == part[1..] + ['/'] + rest;
      SplitFirst(part[1..], rest);
      assert part == [part[0]] + part[1..];
      assert ([part[1..]] + Split(rest, '/'))[1..] == Split(rest, '/');
    }
  }

  lemma {:induction false} SplitAlone(part: string, sep: char)
    requires sep !in part
    ensures Split(part, sep) == [part]
  {
    if part != [] {
      SplitAlone(part[1..], sep);
      assert part == [part[0]] + part[1..];
    }
  }

  /** Splitting undoes joining. */
  lemma {:induction false} SplitOfJoin(parts: seq<string>)
    requires parts != [] && NoSlash(parts)
    ensures Split(Join(parts), '/') == parts
  {
    assert parts[0] in parts;
    if |parts| == 1 {
      SplitAlone(parts[0], '/');
    } else {
      SplitOfJoin(parts[1..]);
      SplitFirst(parts[0], Join(parts[1..]));
      assert parts == [parts[0]] + parts[1..];
    }
  }

  // ----- What survives -----

  lemma {:induction false} KeptAreComponents(components: seq<string>)
    ensures forall p <- Kept(components) :: p in components && !Skipped(p)
  {
    if components != [] {
      KeptAreComponents(components[1..]);
    }
  }

  lemma {:induction false} NoErrorMeansAcceptable(components: seq<string>, input: string)
    ensures FirstError(components, input).None? <==> forall p <- components :: Skipped(p) || Acceptable(p)
  {
    if components != [] {
      NoErrorMeansAcceptable(components[1..], input);
      assert forall p <- components :: p == components[0] || p in components[1..];
      assert components[0] in components && forall p <- components[1..] :: p in components;
    }
  }

  lemma {:induction false} AllKept(components: seq<string>)
    requires forall p <- components :: !Skipped(p)
    ensures Kept(components) == components
  {
    if components != [] {
      assert components[0] in components;
      AllKept(components[1..]);
      assert components == [components[0]] + components[1..];
    }
  }

  lemma {:induction false} SplitCharacters(s: string, c: char)
    ensures (exists p <- Split(s, '/') :: c in p) ==> c in s
  {
    if s != [] {
      SplitCharacters(s[1..], c);
      var rest := Split(s[1..], '/');
      if p :| p in Split(s, '/') && c in p {
        if s[0] == '/' {
          assert p in rest;
        } else if p == [s[0]] + rest[0] && c != s[0] {
          assert c in rest[0] && rest[0] in rest;
        } else if c != s[0] {
          assert p in rest[1..] && p in rest;
        }
      }
    }
  }

  lemma {:induction false} JoinCharacters(parts: seq<string>, c: char)
    requires c in Join(parts) && c != '/'
    ensures exists p <- parts :: c in p
  {
    if |parts| == 1 {
      assert parts[0] in parts;
    } else {
      assert parts[0] in parts;
      if c !in parts[0] {
        JoinCharacters(parts[1..], c);
        var p :| p in parts[1..] && c in p;
        assert p in parts;
      }
    }
  }

  /** The result adds no characters but separators. */
  lemma ResultCharacters(input: string, c: char)
    requires Sanitize(input).Ok? && c in Sanitize(input).value
    ensures c == '/' || c in input
  {
    if c != '/' {
      var kept := Kept(Split(input, '/'));
      JoinCharacters(kept, c);
      var p :| p in kept && c in p;
      KeptAreComponents(Split(input, '/'));
      assert p in Split(input, '/');
      SplitCharacters(input, c);
    }
  }

  /**
    * The result splits into exactly the accepted components of the input; each is non-empty, neither "." nor "..", not
    * reserved and within its limit, and the whole is within its own.
    */
  lemma SanitizedComponents(input: string)
    requires Sanitize(input).Ok?
    ensures var out := Sanitize(input).value;
            && Split(out, '/') == Kept(Split(input, '/'))
            && (forall p <- Split(out, '/') :: Acceptable(p))
            && 0 < |out| && ByteLength(out) <= MAX_RELATIVE_PATH
  {
    var components := Split(input, '/');
    var kept := Kept(components);
    KeptAreComponents(components);
    NoErrorMeansAcceptable(components, input);
    SplitHasNoSlash(input);
    SplitOfJoin(kept);
    assert kept[0] in kept;
  }

  lemma JoinStart(kept: seq<string>)
    requires kept != [] && kept[0] != []
    ensures Join(kept) != [] && Join(kept)[0] == kept[0][0]
    ensures DriveLetter(Join(kept)) <==> DriveLetter(kept[0])
  {
  }

  lemma SameInputRules(input: string)
    requires Sanitize(input).Ok?
    ensures var out := Sanitize(input).value;
            InputError(out) == if DriveLetter(out) then Some(AbsolutePath(out)) else None
  {
    var out := Sanitize(input).value;
    SanitizedComponents(input);
    SplitHasNoSlash(input);
    var kept := Kept(Split(input, '/'));
    KeptAreComponents(Split(input, '/'));
    assert kept[0] in kept && kept[0] in Split(input, '/');
    JoinStart(kept);
    forall c <- out ensures c != '\\' && !Control(c) {
      ResultCharacters(input, c);
    }
  }

  /** Only a drive letter uncovered by dropping leading components makes the result unfit for a second pass. */
  lemma SanitizeAgain(input: string)
    requires Sanitize(input).Ok?
    ensures var out, first := Sanitize(input).value, Kept(Split(input, '/'))[0];
            Kept(Split(input, '/')) != []
            && Sanitize(out) == if DriveLetter(first) then Err(AbsolutePath(out)) else Ok(out)
  {
    var out, kept := Sanitize(input).value, Kept(Split(input, '/'));
    SanitizedComponents(input);
    assert kept[0] in kept;
    JoinStart(kept);
    SameInputRules(input);
    if !DriveLetter(kept[0]) {
      AllKept(kept);
      NoErrorMeansAcceptable(kept, out);
    }
  }

  lemma NotReserved()
    ensures !Reserved("C:x")
  {
    SplitAlone("C:x", '.');
    assert Upper("C:x")[1] == ':';
  }

  /** "./C:x" is accepted, and its result is not. */
  lemma DriveLetterUncovered()
    ensures Sanitize("./C:x") == Ok("C:x") && Sanitize("C:x") == Err(AbsolutePath("C:x"))
  {
    SplitFirst(".", "C:x");
    SplitAlone("C:x", '/');
    assert "./C:x" == "." + ['/'] + "C:x";
    assert Split("./C:x", '/') == [".", "C:x"];
    assert FirstControl("./C:x") == None;
    NotReserved();
    assert ByteLength("C:x") == 3;
    assert Kept(["C:x"]) == ["C:x"] && Kept([".", "C:x"]) == ["C:x"];
  }

  // ----- Which inputs are accepted -----

  /** The name in any mix of cases. */
  predicate Spells(s: string, name: string) {
    |s| == |name| && forall i :: 0 <= i < |s| ==> s[i] == name[i] || ('A' <= name[i] <= 'Z' && s[i] == name[i] + 32 as char)
  }

  /** A device name of Windows: four words, and nine serial and nine parallel ports. */
  predicate Device(s: string) {
    || Spells(s, "CON") || Spells(s, "PRN") || Spells(s, "AUX") || Spells(s, "NUL")
    || (|s| == 4 && (Spells(s[..3], "COM") || Spells(s[..3], "LPT")) && '1' <= s[3] <= '9')
  }

  /** The component is a device name, alone or before a dot. */
  predicate NamesDevice(component: string) {
    exists k :: 0 <= k <= |component| && (k == |component| || component[k] == '.') && '.' !in component[..k]
                && Device(component[..k])
  }

  lemma UpperSpells(s: string, name: string)
    requires forall c <- name :: 'A' <= c <= 'Z'
    ensures Upper(s) == name <==> Spells(s, name)
  {
    assert forall i :: 0 <= i < |name| ==> name[i] in name;
  }

  lemma ReservedWords(u: string)
    ensures u in RESERVED <==>
      u in ["CON", "PRN", "AUX", "NUL"] || (|u| == 4 && u[..3] in ["COM", "LPT"] && '1' <= u[3] <= '9')
  {
    if |u| == 4 && u[..3] in ["COM", "LPT"] && '1' <= u[3] <= '9' {
      var i := u[3] as int - '1' as int + if u[..3] == "COM" then 4 else 13;
      assert RESERVED[i][..3] == u[..3] && RESERVED[i][3] == u[3];
      assert u == u[..3] + [u[3]] && RESERVED[i] == RESERVED[i][..3] + [RESERVED[i][3]];
    }
    if i :| 0 <= i < |RESERVED| && RESERVED[i] == u {
      assert 4 <= i < 13 ==> u[..3] == "COM";
      assert 13 <= i ==> u[..3] == "LPT";
    }
  }

  lemma UpperIsDevice(s: string)
    ensures Upper(s) in RESERVED <==> Device(s)
  {
    ReservedWords(Upper(s));
    UpperSpells(s, "CON");
    UpperSpells(s, "PRN");
    UpperSpells(s, "AUX");
    UpperSpells(s, "NUL");
    if |s| == 4 {
      assert Upper(s)[..3] == Upper(s[..3]);
      UpperSpells(s[..3], "COM");
      UpperSpells(s[..3], "LPT");
    }
  }

  /** The piece before the first separator. */
  lemma {:induction false} SplitHead(s: string, sep: char, k: nat)
    requires k <= |s| && (k == |s| || s[k] == sep) && sep !in s[..k]
    ensures Split(s, sep)[0] == s[..k]
  {
    if k > 0 {
      assert s[..k][0] == s[0] && s[1..][..k - 1] == s[..k][1..];
      SplitHead(s[1..], sep, k - 1);
      assert s[..k] == [s[0]] + s[..k][1..];
    }
  }

  lemma {:induction false} FirstSeparator(s: string, sep: char) returns (k: nat)
    ensures k <= |s| && (k == |s| || s[k] == sep) && sep !in s[..k]
  {
    k := 0;
    if s != [] && s[0] != sep {
      var j := FirstSeparator(s[1..], sep);
      k := j + 1;
      assert s[..k] == [s[0]] + s[1..][..j];
    }
  }

  lemma ReservedIff(component: string)
    ensures Reserved(component) <==> NamesDevice(component)
  {
    var k := FirstSeparator(component, '.');
    SplitHead(component, '.', k);
    UpperIsDevice(component[..k]);
    if j :| 0 <= j <= |component| && (j == |component| || component[j] == '.') && '.' !in component[..j]
            && Device(component[..j]) {
      SplitHead(component, '.', j);
    }
  }

  lemma {:induction false} JoinOfSplit(s: string)
    ensures Join(Split(s, '/')) == s
  {
    if s != [] {
      JoinOfSplit(s[1..]);
    }
  }

  /** Text without backslashes and control characters that starts with neither a slash nor a drive letter. */
  predicate PlainRelative(input: string) {
    && (forall c <- input :: c != '\\' && 32 <= c as int != 127)
    && (|input| > 0 ==> input[0] != '/')
    && (|input| > 1 && input[1] == ':' ==> !('a' <= input[0] <= 'z') && !('A' <= input[0] <= 'Z'))
  }

  predicate NamesNothing(part: string) {
    part == "" || part == "."
  }

  /** The bytes of the parts that name something, with a separator after each. */
  function PathBytes(parts: seq<string>): nat {
    if parts == [] then 0
    else (if NamesNothing(parts[0]) then 0 else ByteLength(parts[0]) + 1) + PathBytes(parts[1..])
  }

  lemma InputErrorIff(input: string)
    ensures InputError(input) == None <==> input != [] && PlainRelative(input)
  {
    assert input != [] ==> input[0] in input;
    assert '\0' in input ==> !PlainRelative(input);
  }

  lemma {:induction false} ByteLengthAppend(a: string, b: string)
    ensures ByteLength(a + b) == ByteLength(a) + ByteLength(b)
  {
    if a == [] {
      assert a + b == b;
    } else {
      assert (a + b)[1..] == a[1..] + b;
      ByteLengthAppend(a[1..], b);
    }
  }

  lemma {:induction false} JoinedBytes(parts: seq<string>)
    ensures Kept(parts) != [] ==> ByteLength(Join(Kept(parts))) + 1 == PathBytes(parts)
    ensures Kept(parts) == [] ==> PathBytes(parts) == 0
    ensures Kept(parts) == [] <==> forall p <- parts :: NamesNothing(p)
  {
    if parts != [] {
      JoinedBytes(parts[1..]);
      assert parts == [parts[0]] + parts[1..];
      var rest := Kept(parts[1..]);
      if !Skipped(parts[0]) && rest != [] {
        assert ([parts[0]] + rest)[1..] == rest;
        ByteLengthAppend(parts[0] + ['/'], Join(rest));
        ByteLengthAppend(parts[0], ['/']);
      }
    }
  }

  /**
    * Exactly which inputs are accepted, from their characters and parts: plain relative text, some part of which names
    * something, and every such part is not "..", at most 255 bytes long and no device, with at most 4096 bytes in all.
    */
  lemma SanitizeOkIff(input: string, parts: seq<string>)
    requires parts != [] && NoSlash(parts) && Join(parts) == input
    ensures Sanitize(input).Ok? <==>
      && PlainRelative(input) && (exists p <- parts :: !NamesNothing(p)) && PathBytes(parts) <= 4097
      && forall p <- parts :: NamesNothing(p) || (p != ".." && ByteLength(p) <= 255 && !NamesDevice(p))
  {
    SplitOfJoin(parts);
    JoinedBytes(parts);
    NoErrorMeansAcceptable(parts, input);
    forall p <- parts ensures Reserved(p) <==> NamesDevice(p) {
      ReservedIff(p);
    }
    InputErrorIff(input);
    assert input == [] ==> Split(input, '/') == [[]];
  }
}
