/** internal/identity/identity.go: canonical paths (Unix path rules, ASCII text), attempt keys, history texts. */
module Identity {
  import opened Text

  type int32 = x: int | -0x8000_0000 <= x <= 0x7fff_ffff

  const UNKNOWN_SPEC := "unknown.spec"

  // ---------------------------------------------------------------- filepath.Clean and filepath.Base

  predicate ArePlain(parts: seq<string>) {
    forall s <- parts :: s != "" && '/' !in s
  }

  /** What one part of a path does to the cleaned parts before it; above a relative start ".." is kept. */
  function CleanStep(part: string, rooted: bool, stack: seq<string>): (r: seq<string>)
    requires ArePlain(stack) && '/' !in part
    ensures ArePlain(r)
  {
    if part == "" || part == "." then stack
    else if part != ".." then stack + [part]
    else if stack != [] && stack[|stack| - 1] != ".." then stack[..|stack| - 1]
    else if rooted then stack
    else stack + [".."]
  }

  function CleanParts(parts: seq<string>, rooted: bool, stack: seq<string>): (r: seq<string>)
    requires ArePlain(stack) && forall p <- parts :: '/' !in p
    ensures ArePlain(r)
  {
    if parts == [] then stack else CleanParts(parts[1..], rooted, CleanStep(parts[0], rooted, stack))
  }

  /** filepath.Clean */
  function Clean(path: string): string {
    if path == "" then "."
    else
      var rooted := path[0] == '/';
      var parts := CleanParts(Split(path, '/'), rooted, []);
      if rooted then "/" + Join(parts, '/') else if parts == [] then "." else Join(parts, '/')
  }

  function TrimTrailingSlashes(path: string): (r: string)
    ensures r <= path
  {
    if path != "" && path[|path| - 1] == '/' then TrimTrailingSlashes(path[..|path| - 1]) else path
  }

  function AfterLastSlash(path: string): (r: string)
    ensures |r| <= |path| && r == path[|path| - |r|..]
    ensures '/' !in r
  {
    if '/' !in path then path else AfterLastSlash(path[1..])
  }

  /** filepath.Base */
  function Base(path: string): string {
    if path == "" then "."
    else
      var trimmed := TrimTrailingSlashes(path);
      if trimmed == "" then "/" else AfterLastSlash(trimmed)
  }

  // ---------------------------------------------------------------- CanonicalPath

  /** The root without backslashes and without a trailing slash. */
  function CleanRoot(projectRoot: string): string {
    var slashed := ReplaceChar(Clean(projectRoot), '\\', '/');
    if slashed != "" && slashed[|slashed| - 1] == '/' then slashed[..|slashed| - 1] else slashed
  }

  function CleanName(name: string): string {
    TrimSpace(ReplaceChar(name, '\\', '/'))
  }

  predicate HasDrive(name: string) {
    |name| >= 3 && ('a' <= LowerChar(name[0]) <= 'z') && name[1] == ':' && name[2] == '/'
  }

  /** The stack of path segments: ".." pops, and never climbs above the start. */
  function Resolved(parts: seq<string>, stack: seq<string>): seq<string> {
    if parts == [] then stack
    else match parts[0]
      case "" => Resolved(parts[1..], stack)
      case "." => Resolved(parts[1..], stack)
      case ".." => Resolved(parts[1..], if stack == [] then [] else stack[..|stack| - 1])
      case part => Resolved(parts[1..], stack + [part])
  }

  /** A name that is still absolute keeps only its last element. */
  function Local(name: string): string {
    var relative := if "./" <= name then name[2..] else name;
    if "/" <= relative || HasDrive(relative) then Base(relative) else relative
  }

  function JoinOrUnknown(parts: seq<string>): string {
    if parts == [] then UNKNOWN_SPEC else Join(parts, '/')
  }

  /** What a name relative to the root becomes. */
  function Normalized(name: string): string {
    JoinOrUnknown(Resolved(Split(Local(name), '/'), []))
  }

  /** Roots that are "." or empty never match a name. */
  predicate Comparable(root: string) {
    root != "." && root != ""
  }

  /** Names are compared with the root without regard to case. */
  predicate Under(root: string, name: string) {
    Lower(root) + "/" <= Lower(name)
  }

  predicate IsRootItself(projectRoot: string, name: string) {
    Comparable(CleanRoot(projectRoot)) && Lower(CleanName(name)) == Lower(CleanRoot(projectRoot))
  }

  /** The name without the root it starts with, if it does. */
  function Relative(root: string, name: string): string {
    if Comparable(root) && Under(root, name) then name[|root| + 1..] else name
  }

  function CanonicalPath(projectRoot: string, name: string): string {
    if IsRootItself(projectRoot, name) then "." else Normalized(Relative(CleanRoot(projectRoot), CleanName(name)))
  }

  /** CanonicalPath as the source runs it: the name reassigned, then a stack of segments. */
  method RunCanonicalPath(projectRoot: string, name: string) returns (result: string)
    ensures result == CanonicalPath(projectRoot, name)
  {
    var cleanName := CleanName(name);
    var cleanRoot := CleanRoot(projectRoot);
    if Comparable(cleanRoot) {
      if Lower(cleanName) == Lower(cleanRoot) {
        return ".";
      }
      if Under(cleanRoot, cleanName) {
        cleanName := cleanName[|cleanRoot| + 1..];
      }
    }
    result := RunNormalize(cleanName);
  }

  method RunNormalize(relativeName: string) returns (result: string)
    ensures result == Normalized(relativeName)
  {
    var cleanName := relativeName;
    if "./" <= cleanName {
      cleanName := cleanName[2..];
    }
    if "/" <= cleanName || HasDrive(cleanName) {
      cleanName := Base(cleanName);
    }
    var parts := RunResolve(Split(cleanName, '/'));
    result := if |parts| == 0 then UNKNOWN_SPEC else Join(parts, '/');
  }

  method RunResolve(segments: seq<string>) returns (parts: seq<string>)
    ensures parts == Resolved(segments, [])
  {
    parts := [];
    assert segments[0..] == segments;
    for i := 0 to |segments|
      invariant Resolved(segments, []) == Resolved(segments[i..], parts)
    {
      assert segments[i..][1..] == segments[i + 1..];
      var part := segments[i];
      if part == "" || part == "." {
        continue;
      } else if part == ".." {
        if |parts| > 0 {
          parts := parts[..|parts| - 1];
        }
      } else {
        parts := parts + [part];
      }
    }
  }

  // ---------------------------------------------------------------- shape of canonical paths

  predicate IsSegment(s: string) {
    s != "" && s != "." && s != ".." && '/' !in s && '\\' !in s
  }

  /** A non-empty slash-joined list of ordinary segments: relative, and inside its root. */
  predicate IsLocalPath(path: string) {
    forall s <- Split(path, '/') :: IsSegment(s)
  }

  lemma {:induction false} SplitKeepsCharacters(s: string, sep: char, c: char)
    requires c !in s
    ensures forall part <- Split(s, sep) :: c !in part
  {
    if s != "" {
      SplitKeepsCharacters(s[1..], sep, c);
    }
  }

  lemma {:induction false} ResolvedSegments(parts: seq<string>, stack: seq<string>)
    requires forall p <- parts :: '/' !in p && '\\' !in p
    requires forall s <- stack :: IsSegment(s)
    ensures forall s <- Resolved(parts, stack) :: IsSegment(s)
  {
    if parts != [] {
      match parts[0]
      case "" => ResolvedSegments(parts[1..], stack);
      case "." => ResolvedSegments(parts[1..], stack);
      case ".." => ResolvedSegments(parts[1..], if stack == [] then [] else stack[..|stack| - 1]);
      case part => ResolvedSegments(parts[1..], stack + [part]);
    }
  }

  /** What the last segment does: empty ones and "." nothing, ".." takes the one before it away, any other is kept. */
  lemma {:induction false} ResolvedSnoc(parts: seq<string>, last: string, stack: seq<string>)
    ensures var before := Resolved(parts, stack);
            Resolved(parts + [last], stack) ==
            if last == "" || last == "." then before
            else if last == ".." then if before == [] then [] else before[..|before| - 1]
            else before + [last]
  {
    if parts == [] {
      assert [] + [last] == [last] && [last][1..] == [];
    } else {
      assert (parts + [last])[0] == parts[0] && (parts + [last])[1..] == parts[1..] + [last];
      match parts[0]
      case "" => ResolvedSnoc(parts[1..], last, stack);
      case "." => ResolvedSnoc(parts[1..], last, stack);
      case ".." => ResolvedSnoc(parts[1..], last, if stack == [] then [] else stack[..|stack| - 1]);
      case part => ResolvedSnoc(parts[1..], last, stack + [part]);
    }
  }

  lemma {:induction false} ResolvedConcat(a: seq<string>, b: seq<string>, stack: seq<string>)
    ensures Resolved(a + b, stack) == Resolved(b, Resolved(a, stack))
  {
    if a == [] {
      assert a + b == b;
    } else {
      assert (a + b)[0] == a[0] && (a + b)[1..] == a[1..] + b;
      match a[0]
      case "" => ResolvedConcat(a[1..], b, stack);
      case "." => ResolvedConcat(a[1..], b, stack);
      case ".." => ResolvedConcat(a[1..], b, if stack == [] then [] else stack[..|stack| - 1]);
      case part => ResolvedConcat(a[1..], b, stack + [part]);
    }
  }

  /** A segment and the ".." behind it cancel out, wherever they stand. */
  lemma UpUndoesDown(before: seq<string>, segment: string, behind: seq<string>)
    requires IsSegment(segment)
    ensures Resolved(before + [segment] + [".."] + behind, []) == Resolved(before + behind, [])
  {
    ResolvedSnoc(before, segment, []);
    ResolvedSnoc(before + [segment], "..", []);
    ResolvedConcat(before + [segment] + [".."], behind, []);
    ResolvedConcat(before, behind, []);
  }

  lemma UnknownIsLocal()
    ensures IsLocalPath(UNKNOWN_SPEC)
  {
    assert IsSegment(UNKNOWN_SPEC);
    SplitWithoutSeparator(UNKNOWN_SPEC, '/');
  }

  lemma JoinedIsLocal(parts: seq<string>)
    requires forall s <- parts :: IsSegment(s)
    ensures IsLocalPath(JoinOrUnknown(parts))
  {
    if parts == [] {
      UnknownIsLocal();
    } else {
      assert forall part <- parts :: IsSegment(part);
      SplitJoin(parts, '/');
    }
  }

  lemma LocalKeepsSlashes(name: string)
    requires '\\' !in name
    ensures '\\' !in Local(name)
  {
    assert forall c <- Local(name) :: c in name || c == '/' || c == '.';
  }

  lemma ResolvedIsLocal(local: string)
    requires '\\' !in local
    ensures IsLocalPath(JoinOrUnknown(Resolved(Split(local, '/'), [])))
  {
    SplitKeepsCharacters(local, '/', '\\');
    ResolvedSegments(Split(local, '/'), []);
    JoinedIsLocal(Resolved(Split(local, '/'), []));
  }

  lemma NormalizedIsLocal(name: string)
    requires '\\' !in name
    ensures IsLocalPath(Normalized(name))
  {
    LocalKeepsSlashes(name);
    ResolvedIsLocal(Local(name));
  }

  lemma DotIsNotLocal()
    ensures !IsLocalPath(".")
  {
    SplitWithoutSeparator(".", '/');
    assert "." in Split(".", '/');
  }

  lemma CleanNameSlashes(name: string)
    ensures '\\' !in CleanName(name)
  {
  }

  /** "." exactly for the root itself; every other canonical path is relative and stays inside the root. */
  lemma CanonicalPathShape(projectRoot: string, name: string)
    ensures CanonicalPath(projectRoot, name) == "." <==> IsRootItself(projectRoot, name)
    ensures !IsRootItself(projectRoot, name) ==> IsLocalPath(CanonicalPath(projectRoot, name))
  {
    CleanNameSlashes(name);
    DotIsNotLocal();
    NormalizedIsLocal(Relative(CleanRoot(projectRoot), CleanName(name)));
  }

  // ---------------------------------------------------------------- independence of the checkout

  /** An absolute, cleaned root other than "/" without backslashes. */
  predicate IsCheckout(root: string) {
    "/" <= root != "/" && Clean(root) == root && '\\' !in root
  }

  lemma {:induction false} JoinEnd(parts: seq<string>)
    requires parts != [] && forall s <- parts :: s != "" && '/' !in s
    ensures Join(parts, '/') != "" && Join(parts, '/')[|Join(parts, '/')| - 1] != '/'
  {
    assert parts[0] in parts;
    if |parts| == 1 {
      var last := parts[0];
      assert last[|last| - 1] in last;
    } else {
      assert forall s <- parts[1..] :: s in parts;
      JoinEnd(parts[1..]);
    }
  }

  lemma NothingToReplace(s: string, from: char, to: char)
    requires from !in s
    ensures ReplaceChar(s, from, to) == s
  {
    var r := ReplaceChar(s, from, to);
    forall i | 0 <= i < |s| ensures r[i] == s[i] {
    }
  }

  /** A cleaned root other than "/" does not end in a slash. */
  lemma CheckoutEnd(root: string, parts: seq<string>)
    requires IsCheckout(root) && parts == CleanParts(Split(root, '/'), true, [])
    ensures root[|root| - 1] != '/'
  {
    var slash := "/";
    assert root == slash + Join(parts, '/');
    if parts != [] {
      JoinEnd(parts);
    }
  }

  lemma CheckoutIsItsCleanRoot(root: string)
    requires IsCheckout(root)
    ensures CleanRoot(root) == root && Comparable(root)
  {
    CheckoutEnd(root, CleanParts(Split(root, '/'), true, []));
    NothingToReplace(root, '\\', '/');
  }

  lemma {:induction false} TrimRightAppend(a: string, b: string)
    requires a != "" && !IsSpace(a[|a| - 1])
    ensures TrimRight(a + b) == a + TrimRight(b)
  {
    if b == "" {
      assert a + b == a;
    } else {
      assert (a + b)[..|a + b| - 1] == a + b[..|b| - 1];
      if IsSpace(b[|b| - 1]) {
        TrimRightAppend(a, b[..|b| - 1]);
      }
    }
  }

  function Slashed(name: string): string {
    ReplaceChar(name, '\\', '/')
  }

  lemma CleanNameBelow(root: string, tail: string)
    requires IsCheckout(root)
    ensures CleanName(root + "/" + tail) == root + "/" + TrimRight(Slashed(tail))
  {
    var whole := root + "/" + tail;
    assert Slashed(whole) == (root + "/") + Slashed(tail);
    TrimRightAppend(root + "/", Slashed(tail));
  }

  lemma RelativeBelow(root: string, rest: string)
    requires Comparable(root)
    ensures Relative(root, root + "/" + rest) == rest
    ensures Lower(root + "/" + rest) != Lower(root)
  {
  }

  lemma RelativeElsewhere(root: string, name: string)
    requires "/" <= root && (name == "" || name[0] != '/')
    ensures Relative(root, name) == name
    ensures Lower(name) != Lower(root)
  {
  }

  /** Below a checkout, only the rest of the name counts. */
  lemma BelowCheckout(root: string, tail: string)
    requires IsCheckout(root)
    ensures CanonicalPath(root, root + "/" + tail) == Normalized(TrimRight(Slashed(tail)))
  {
    CheckoutIsItsCleanRoot(root);
    CleanNameBelow(root, tail);
    RelativeBelow(root, TrimRight(Slashed(tail)));
  }

  /** The canonical path of a file does not depend on where the project is checked out. */
  lemma CheckoutIndependent(a: string, b: string, tail: string)
    requires IsCheckout(a) && IsCheckout(b)
    ensures CanonicalPath(a, a + "/" + tail) == CanonicalPath(b, b + "/" + tail)
  {
    BelowCheckout(a, tail);
    BelowCheckout(b, tail);
  }

  /** Reporting a file by its absolute or by its project-relative name comes to the same. */
  lemma AbsoluteAgreesWithRelative(root: string, tail: string)
    requires IsCheckout(root)
    requires tail != "" ==> !IsSpace(tail[0]) && tail[0] != '/' && tail[0] != '\\'
    ensures CanonicalPath(root, root + "/" + tail) == CanonicalPath(root, tail)
  {
    BelowCheckout(root, tail);
    CheckoutIsItsCleanRoot(root);
    assert CleanName(tail) == TrimRight(Slashed(tail));
    RelativeElsewhere(root, CleanName(tail));
  }

  /** Upper and lower case, and both slashes, are alike in the part of a name that is the checkout. */
  lemma CheckoutInAnyCase(root: string, written: string, tail: string)
    requires IsCheckout(root) && Lower(Slashed(written)) == Lower(root)
    ensures CanonicalPath(root, written + "/" + tail) == CanonicalPath(root, root + "/" + tail)
  {
    var other, rest := Slashed(written), TrimRight(Slashed(tail));
    SlashInAnyCase(root, other);
    CheckoutIsItsCleanRoot(root);
    BelowCheckout(root, tail);
    OtherCaseIsClean(written, other, tail);
    RelativeInOtherCase(root, other, rest);
    CanonicalOfRelative(root, root, written + "/" + tail, other + "/" + rest, rest);
  }

  lemma SlashInAnyCase(root: string, other: string)
    requires "/" <= root && Lower(other) == Lower(root)
    ensures other != "" && other[0] == '/'
  {
    assert |other| == |Lower(other)| == |Lower(root)| == |root| && root[0] == '/';
    assert Lower(other)[0] == Lower(root)[0];
  }

  lemma CanonicalOfRelative(projectRoot: string, own: string, name: string, clean: string, rest: string)
    requires own == CleanRoot(projectRoot) && Comparable(own) && clean == CleanName(name)
    requires Lower(clean) != Lower(own) && Relative(own, clean) == rest
    ensures CanonicalPath(projectRoot, name) == Normalized(rest)
  {
  }

  lemma OtherCaseIsClean(written: string, other: string, tail: string)
    requires other == Slashed(written) && other != "" && other[0] == '/'
    ensures CleanName(written + "/" + tail) == other + "/" + TrimRight(Slashed(tail))
  {
    var whole := written + "/" + tail;
    assert Slashed(whole) == (other + "/") + Slashed(tail);
    assert Slashed(whole)[0] == '/';
    TrimRightAppend(other + "/", Slashed(tail));
  }

  lemma RelativeInOtherCase(root: string, other: string, rest: string)
    requires Comparable(root) && Lower(other) == Lower(root)
    ensures Relative(root, other + "/" + rest) == rest
    ensures Lower(other + "/" + rest) != Lower(root)
  {
    assert Lower(other + "/" + rest) == Lower(other) + "/" + Lower(rest);
    assert |other| == |Lower(other)| == |Lower(root)| == |root|;
  }

  /** Letters in both cases are alike, and nothing else is. */
  lemma LowerExactly(c: char, d: char)
    ensures LowerChar(c) == LowerChar(d) <==>
            || c == d
            || ('A' <= c <= 'Z' && d == c - 'A' + 'a')
            || ('A' <= d <= 'Z' && c == d - 'A' + 'a')
  {
  }

  /** Backslashes count as slashes. */
  lemma BackslashesAreSlashes(root: string, name: string)
    ensures CanonicalPath(root, name) == CanonicalPath(root, Slashed(name))
  {
    assert Slashed(Slashed(name)) == Slashed(name);
  }

  lemma DriveExactly(name: string)
    ensures HasDrive(name) <==>
            exists letter: char, rest: string ::
              ('a' <= letter <= 'z' || 'A' <= letter <= 'Z') && name == [letter] + ":/" + rest
  {
    if HasDrive(name) {
      assert name == [name[0]] + ":/" + name[3..];
    }
    forall letter: char, rest: string
      | ('a' <= letter <= 'z' || 'A' <= letter <= 'Z') && name == [letter] + ":/" + rest
      ensures HasDrive(name)
    {
      assert name[0] == letter && name[1] == ':' && name[2] == '/';
    }
  }

  lemma SlashIsClean()
    ensures CleanRoot("/") == ""
  {
    assert Split("/", '/') == ["", ""];
    assert ["", ""][1..] == [""] && [""][1..] == [];
    assert CleanParts(["", ""], true, []) == [];
  }

  lemma SegmentResolves(base: string)
    requires IsSegment(base)
    ensures JoinOrUnknown(Resolved(Split(base, '/'), [])) == base
  {
    SplitWithoutSeparator(base, '/');
    assert [base][1..] == [];
  }

  lemma LocalOfAbsolute(clean: string)
    requires "/" <= clean
    ensures Local(clean) == Base(clean)
  {
    assert clean[0] == '/';
  }

  /** A project checked out at "/" is the exception: an absolute name keeps only its last element. */
  lemma RootDirectoryKeepsBaseOnly(name: string)
    requires "/" <= CleanName(name) && IsSegment(Base(CleanName(name)))
    ensures CanonicalPath("/", name) == Base(CleanName(name))
  {
    SlashIsClean();
    LocalOfAbsolute(CleanName(name));
    SegmentResolves(Base(CleanName(name)));
  }

  /** An ordinary part and the ".." behind it cancel out; further up than its start an absolute path does not lead. */
  lemma CleanUpUndoesDown(part: string, rooted: bool, stack: seq<string>)
    requires ArePlain(stack) && IsSegment(part)
    ensures CleanStep("..", rooted, CleanStep(part, rooted, stack)) == stack
    ensures CleanStep("..", true, []) == [] && CleanStep("..", false, []) == [".."]
  {
  }

  lemma {:induction false} CleanKeepsSegments(parts: seq<string>, stack: seq<string>)
    requires (forall part <- parts :: IsSegment(part)) && ArePlain(stack)
    ensures forall part <- parts :: '/' !in part
    ensures CleanParts(parts, true, stack) == stack + parts
  {
    if parts != [] {
      assert IsSegment(parts[0]);
      CleanKeepsSegments(parts[1..], stack + [parts[0]]);
      assert (stack + [parts[0]]) + parts[1..] == stack + parts;
    }
  }

  /** Every absolute path of ordinary segments is a checkout. */
  lemma OrdinaryRootsAreCheckouts(parts: seq<string>, root: string)
    requires parts != [] && (forall part <- parts :: IsSegment(part)) && root == "/" + Join(parts, '/')
    ensures IsCheckout(root)
  {
    JoinedCharacters(parts);
    assert forall part <- parts :: IsSegment(part);
    SplitJoin(parts, '/');
    assert root == "" + ['/'] + Join(parts, '/');
    SplitAtSeparator("", '/', Join(parts, '/'));
    assert Split(root, '/') == [""] + parts && ([""] + parts)[1..] == parts;
    CleanKeepsSegments(parts, []);
    assert [] + parts == parts;
  }

  // ---------------------------------------------------------------- names that are canonical already

  /** A trimmed, slash-joined list of ordinary segments that does not look like a drive. */
  predicate IsOrdinary(parts: seq<string>, name: string) {
    && parts != [] && (forall part <- parts :: IsSegment(part)) && name == Join(parts, '/')
    && TrimSpace(name) == name
  }

  lemma {:induction false} ResolvedKeepsSegments(parts: seq<string>, stack: seq<string>)
    requires forall part <- parts :: IsSegment(part)
    ensures Resolved(parts, stack) == stack + parts
  {
    if parts == [] {
    } else {
      assert IsSegment(parts[0]);
      ResolvedKeepsSegments(parts[1..], stack + [parts[0]]);
      assert (stack + [parts[0]]) + parts[1..] == stack + parts;
    }
  }

  lemma {:induction false} JoinedCharacters(parts: seq<string>)
    requires parts != [] && forall part <- parts :: IsSegment(part)
    ensures Join(parts, '/') != "" && Join(parts, '/')[0] != '/' && '\\' !in Join(parts, '/')
  {
    assert IsSegment(parts[0]);
    if |parts| > 1 {
      JoinedCharacters(parts[1..]);
    }
  }

  /** No dot stands alone before the first slash. */
  lemma JoinedHasNoDotPrefix(parts: seq<string>)
    requires parts != [] && forall part <- parts :: IsSegment(part)
    ensures !("./" <= Join(parts, '/'))
  {
    var name, head := Join(parts, '/'), parts[0];
    assert IsSegment(head) && head <= name && (|head| < |name| ==> name[|head|] == '/');
    if |head| == 1 {
      assert head != ['.'];
    } else {
      assert head[1] in head && head[1] == name[1];
    }
  }

  lemma OrdinaryNormalizes(parts: seq<string>, name: string)
    requires IsOrdinary(parts, name) && !HasDrive(name)
    ensures Normalized(name) == name
  {
    JoinedCharacters(parts);
    JoinedHasNoDotPrefix(parts);
    assert Local(name) == name;
    SplitJoin(parts, '/');
    ResolvedKeepsSegments(parts, []);
    assert [] + parts == parts;
  }

  /** Canonicalising leaves a name that is canonical already, in every checkout. */
  lemma OrdinaryIsCanonical(root: string, parts: seq<string>, name: string)
    requires IsCheckout(root) && IsOrdinary(parts, name) && !HasDrive(name)
    ensures CanonicalPath(root, name) == name
  {
    CheckoutIsItsCleanRoot(root);
    OrdinaryIsClean(parts, name);
    JoinedCharacters(parts);
    RelativeElsewhere(root, name);
    OrdinaryNormalizes(parts, name);
  }

  // ---------------------------------------------------------------- which canonical paths occur

  lemma {:induction false} ResolvedDropsDot(parts: seq<string>, stack: seq<string>)
    requires forall part <- parts :: IsSegment(part)
    ensures Resolved(parts + ["."], stack) == stack + parts
  {
    if parts == [] {
      assert [] + ["."] == ["."] && ["."][1..] == [];
    } else {
      assert IsSegment(parts[0]) && (parts + ["."])[0] == parts[0] && (parts + ["."])[1..] == parts[1..] + ["."];
      ResolvedDropsDot(parts[1..], stack + [parts[0]]);
      assert (stack + [parts[0]]) + parts[1..] == stack + parts;
    }
  }

  lemma {:induction false} JoinWithDot(parts: seq<string>)
    requires forall part <- parts :: '\\' !in part
    ensures var name := Join(parts + ["."], '/');
            name != "" && name[|name| - 1] == '.' && '\\' !in name
  {
    if parts != [] {
      assert (parts + ["."])[1..] == parts[1..] + ["."];
      JoinWithDot(parts[1..]);
    }
  }

  lemma DetourIsUndone(parts: seq<string>, all: seq<string>)
    requires (forall part <- parts :: IsSegment(part)) && all == ["a", ".."] + parts + ["."]
    ensures Resolved(all, []) == parts
  {
    assert all[1..][1..] == parts + ["."] && ([] + ["a"])[..0] == [];
    ResolvedDropsDot(parts, []);
    assert [] + parts == parts;
  }

  /** A name with detours around the path: no trimming, no drive and no root interferes. */
  lemma DetourName(up: string, head: seq<string>, parts: seq<string>, name: string)
    requires up == ".." && head == ["a", up] + parts && forall part <- parts :: IsSegment(part)
    requires name == Join(head + ["."], '/')
    ensures |name| > 2 && name[0] == 'a' && name[1] == '/' && name[|name| - 1] == '.' && '\\' !in name
    ensures Split(name, '/') == head + ["."]
  {
    assert (head + ["."])[1..] == [up] + parts + ["."];
    assert forall part <- head :: part == "a" || part == up || IsSegment(part);
    JoinWithDot(head);
    SplitJoin(head + ["."], '/');
  }

  lemma RelativeNameStays(root: string, own: string, name: string)
    requires own == CleanRoot(root) && (own == "" || own[0] == '/')
    requires CleanName(name) == name && name != "" && name[0] != '/'
    ensures CanonicalPath(root, name) == Normalized(name)
  {
    if own == "" {
      CleanedAwayRoot(root, name, name);
    } else {
      RelativeElsewhere(own, name);
    }
  }

  lemma DetourResolves(root: string, parts: seq<string>, all: seq<string>, name: string)
    requires "/" <= root && parts != [] && (forall part <- parts :: IsSegment(part))
    requires all == ["a", ".."] + parts + ["."] && name == Join(all, '/')
    ensures CanonicalPath(root, name) == Join(parts, '/') && !IsBlank(name)
  {
    DetourIsUndone(parts, all);
    DetourName("..", ["a", ".."] + parts, parts, name);
    TrimmedIsClean(name);
    TrimmedStays(name);
    RootStaysAbsolute(root, Clean(root));
    RelativeNameStays(root, CleanRoot(root), name);
    DetourIsLocal(name);
  }

  lemma DetourIsLocal(name: string)
    requires |name| > 2 && name[0] == 'a' && name[1] == '/'
    ensures Local(name) == name
  {
  }

  lemma RootStaysAbsolute(root: string, clean: string)
    requires "/" <= root && clean == Clean(root)
    ensures CleanRoot(root) == "" || CleanRoot(root)[0] == '/'
  {
    assert root[0] == '/' && clean[0] == '/';
  }

  /** The root is reported under a name of its own; not "/", nor a directory whose name ends in a space. */
  predicate HasRootName(root: string) {
    Comparable(CleanRoot(root)) && CleanName(CleanRoot(root)) == CleanRoot(root)
  }

  lemma SameEnds(clean: string, own: string)
    requires Lower(clean) == Lower(own) && own != "" && (clean == "" || TrimSpace(clean) == clean)
    ensures clean != "" && !IsSpace(own[0]) && !IsSpace(own[|own| - 1])
  {
    assert |own| == |Lower(own)| == |clean|;
    assert Lower(clean)[0] == Lower(own)[0] && Lower(clean)[|own| - 1] == Lower(own)[|own| - 1];
  }

  lemma CleanNameIsTrimmed(name: string, clean: string)
    requires clean == CleanName(name)
    ensures clean == "" || TrimSpace(clean) == clean
  {
    if clean != "" {
      TrimmedStays(clean);
    }
  }

  lemma CleanRootSlashes(root: string)
    ensures '\\' !in CleanRoot(root)
  {
  }

  lemma RootNameNeeded(root: string, own: string, name: string)
    requires IsRootItself(root, name) && own == CleanRoot(root)
    ensures HasRootName(root)
  {
    CleanNameIsTrimmed(name, CleanName(name));
    CleanRootSlashes(root);
    SameEnds(CleanName(name), own);
    TrimmedIsClean(own);
  }

  /** Every local path is the canonical path of some name; "." is where the root has a name. */
  lemma CanonicalPathsExactly(root: string, path: string) returns (name: string)
    requires "/" <= root
    ensures IsLocalPath(path) || (path == "." && HasRootName(root)) ==>
              CanonicalPath(root, name) == path && !IsBlank(name)
    ensures (exists other :: CanonicalPath(root, other) == path) ==>
              IsLocalPath(path) || (path == "." && HasRootName(root))
  {
    name := CleanRoot(root);
    if IsLocalPath(path) {
      name := Join(["a", ".."] + Split(path, '/') + ["."], '/');
      DetourResolves(root, Split(path, '/'), ["a", ".."] + Split(path, '/') + ["."], name);
      JoinSplit(path, '/');
    } else if path == "." && HasRootName(root) {
      CleanRootSlashes(root);
      NothingToReplace(name, '\\', '/');
      assert IsRootItself(root, name);
    }
    forall other | CanonicalPath(root, other) == path
      ensures IsLocalPath(path) || (path == "." && HasRootName(root))
    {
      CanonicalPathShape(root, other);
      if IsRootItself(root, other) {
        RootNameNeeded(root, CleanRoot(root), other);
      }
    }
  }

  lemma {:induction false} LastPart(parts: seq<string>)
    requires parts != [] && forall part <- parts :: IsSegment(part)
    ensures AfterLastSlash(Join(parts, '/')) == parts[|parts| - 1]
  {
    assert IsSegment(parts[0]);
    if |parts| > 1 {
      LastPart(parts[1..]);
      AfterPrefix(parts[0], Join(parts[1..], '/'));
    }
  }

  lemma {:induction false} AfterPrefix(head: string, rest: string)
    requires '/' !in head
    ensures AfterLastSlash(head + ['/'] + rest) == AfterLastSlash(rest)
  {
    var whole := head + ['/'] + rest;
    assert whole[|head|] == '/';
    if head == "" {
      assert whole[1..] == rest;
    } else {
      assert whole[1..] == head[1..] + ['/'] + rest;
      AfterPrefix(head[1..], rest);
    }
  }

  lemma JoinEndsInSegment(parts: seq<string>)
    requires parts != [] && forall part <- parts :: IsSegment(part)
    ensures Join(parts, '/') != "" && Join(parts, '/')[|Join(parts, '/')| - 1] != '/'
  {
    forall s | s in parts ensures s != "" && '/' !in s {
      assert IsSegment(s);
    }
    JoinEnd(parts);
  }

  lemma TrimmedIsClean(s: string)
    requires '\\' !in s && s != "" && !IsSpace(s[0]) && !IsSpace(s[|s| - 1])
    ensures CleanName(s) == s
  {
    NothingToReplace(s, '\\', '/');
    TrimmedStays(s);
  }

  lemma OrdinaryIsClean(parts: seq<string>, name: string)
    requires IsOrdinary(parts, name)
    ensures CleanName(name) == name && CleanName("/" + name) == "/" + name
  {
    OrdinaryEnds(parts, name);
    TrimmedIsClean(name);
    SlashBeforeTrimmed(name, "/" + name);
  }

  lemma OrdinaryEnds(parts: seq<string>, name: string)
    requires IsOrdinary(parts, name)
    ensures name != "" && '\\' !in name && !IsSpace(name[0]) && !IsSpace(name[|name| - 1])
  {
    JoinedCharacters(parts);
    TrimmedEnds(name, TrimSpace(name));
  }

  lemma TrimmedEnds(name: string, trimmed: string)
    requires trimmed == TrimSpace(name) && trimmed == name != ""
    ensures !IsSpace(name[0]) && !IsSpace(name[|name| - 1])
  {
  }

  lemma SlashBeforeTrimmed(name: string, whole: string)
    requires whole == "/" + name && '\\' !in name && name != "" && !IsSpace(name[|name| - 1])
    ensures CleanName(whole) == whole
  {
    assert whole[0] == '/' && whole[|whole| - 1] == name[|name| - 1];
    TrimmedIsClean(whole);
  }

  lemma BaseAfterSlash(name: string)
    requires name != "" && name[|name| - 1] != '/'
    ensures Base(name) == AfterLastSlash(name)
  {
  }

  lemma BaseOfOrdinary(parts: seq<string>, name: string)
    requires IsOrdinary(parts, name)
    ensures Base(name) == parts[|parts| - 1] == Base("/" + name)
  {
    JoinEndsInSegment(parts);
    LastPart(parts);
    BaseAfterSlash(name);
    BaseAfterSlash("/" + name);
    AfterLeadingSlash(name, "/" + name);
  }

  lemma AfterLeadingSlash(name: string, whole: string)
    requires whole == "/" + name
    ensures AfterLastSlash(whole) == AfterLastSlash(name)
  {
    assert whole[0] == '/' && whole[1..] == name;
  }

  lemma CleanedAwayRoot(root: string, name: string, clean: string)
    requires CleanRoot(root) == "" && CleanName(name) == clean
    ensures CanonicalPath(root, name) == Normalized(clean)
  {
  }

  lemma SlashNormalizes(root: string, parts: seq<string>, name: string)
    requires CleanRoot(root) == "" && IsOrdinary(parts, name)
    ensures CanonicalPath(root, name) == Normalized(name) && CanonicalPath(root, "/" + name) == Normalized("/" + name)
  {
    OrdinaryIsClean(parts, name);
    CleanedAwayRoot(root, name, name);
    CleanedAwayRoot(root, "/" + name, "/" + name);
  }

  lemma AbsoluteKeepsBase(parts: seq<string>, name: string, whole: string)
    requires IsOrdinary(parts, name) && whole == "/" + name
    ensures Normalized(whole) == parts[|parts| - 1]
  {
    var last := parts[|parts| - 1];
    assert IsSegment(last);
    BaseOfOrdinary(parts, name);
    LocalOfAbsolute(whole);
    SegmentResolves(last);
  }

  /** An absolute name of a file outside the project keeps only its last element. */
  lemma OutsideKeepsBaseOnly(root: string, parts: seq<string>, name: string, whole: string)
    requires IsCheckout(root) && IsOrdinary(parts, name) && whole == "/" + name
    requires Lower(whole) != Lower(root) && !(Lower(root) + "/" <= Lower(whole))
    ensures CanonicalPath(root, whole) == parts[|parts| - 1]
  {
    CheckoutIsItsCleanRoot(root);
    OrdinaryIsClean(parts, name);
    AbsoluteKeepsBase(parts, name, whole);
  }

  /** A "./" in front is dropped before the name is looked at: what follows may be absolute. */
  lemma DotSlashIsDropped(name: string)
    requires !("./" <= name)
    ensures Normalized("./" + name) == Normalized(name)
  {
    assert ("./" + name)[2..] == name;
  }

  /** No name belongs to a project that is given as "." or not at all. */
  lemma RelativeRootsNeverMatch(root: string, name: string)
    requires root == "." || root == ""
    ensures CanonicalPath(root, name) == Normalized(CleanName(name))
  {
    if root == "." {
      assert Split(root, '/') == [root] by {
        SplitWithoutSeparator(root, '/');
      }
      assert [root][1..] == [] && CleanParts([root], false, []) == [];
    }
    assert Clean(root) == "." && CleanRoot(root) == ".";
  }

  /**
   * A project checked out at "/": the absolute and the relative name of a file agree exactly for files right below
   * the root, and for relative names that look like a drive.
   */
  lemma RootDirectoryAgreesExactly(root: string, parts: seq<string>, name: string)
    requires root == "/" && IsOrdinary(parts, name)
    ensures CanonicalPath(root, "/" + name) == parts[|parts| - 1]
    ensures CanonicalPath(root, "/" + name) == CanonicalPath(root, name) <==> |parts| == 1 || HasDrive(name)
  {
    SlashIsClean();
    SlashNormalizes(root, parts, name);
    AbsoluteKeepsBase(parts, name, "/" + name);
    if HasDrive(name) {
      DriveKeepsBase(parts, name);
    } else {
      OrdinaryNormalizes(parts, name);
      LastPartIsShorter(parts);
    }
  }

  lemma DriveKeepsBase(parts: seq<string>, name: string)
    requires IsOrdinary(parts, name) && HasDrive(name)
    ensures Normalized(name) == parts[|parts| - 1]
  {
    BaseOfOrdinary(parts, name);
    assert IsSegment(parts[|parts| - 1]);
    NormalizedDrive(name, parts[|parts| - 1]);
  }

  lemma LocalOfDrive(name: string)
    requires HasDrive(name)
    ensures Local(name) == Base(name)
  {
    assert name[0] != '.' && name[0] != '/';
  }

  lemma NormalizedDrive(name: string, last: string)
    requires HasDrive(name) && Base(name) == last && IsSegment(last)
    ensures Normalized(name) == last
  {
    LocalOfDrive(name);
    SegmentResolves(last);
  }

  lemma {:induction false} LastPartIsShorter(parts: seq<string>)
    requires parts != []
    ensures parts[|parts| - 1] == Join(parts, '/') <==> |parts| == 1
    ensures |parts[|parts| - 1]| <= |Join(parts, '/')|
  {
    if |parts| > 1 {
      LastPartIsShorter(parts[1..]);
    }
  }

  /** For instance: the absolute name loses its directory, the relative one keeps it. */
  lemma RootDirectoryLosesDirectories(root: string, parts: seq<string>, name: string)
    requires root == "/" && parts == ["a", "b"] && name == "a/b"
    ensures CanonicalPath(root, "/" + name) == "b" && CanonicalPath(root, name) == name
  {
    assert parts[1..] == ["b"];
    TrimmedStays(name);
    RootDirectoryAgreesExactly(root, parts, name);
    SlashIsClean();
    SlashNormalizes(root, parts, name);
    OrdinaryNormalizes(parts, name);
  }

  lemma TrimmedStays(s: string)
    requires s != "" && !IsSpace(s[0]) && !IsSpace(s[|s| - 1])
    ensures TrimSpace(s) == s
  {
  }
}
