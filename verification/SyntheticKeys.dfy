/** Keys of synthetic results, and in which projects they meet keys of attempts. */
module SyntheticKeys {
  import opened Int64
  import opened Wrappers
  import opened Text
  import opened Timing
  import opened Status
  import opened Identity
  import opened Keys
  import opened ScenarioMapping
  import opened Suite
  import M = SuiteMapping

  /** The key of an attempt this mapper can see. */
  ghost predicate IsAttemptKey(ctx: Context, key: string) {
    exists file, item, scenario, retry {:trigger KeyOf(ctx, file, item, scenario, retry)} ::
      key == KeyOf(ctx, file, item, scenario, retry)
  }

  /** The key of an error this mapper can report. */
  ghost predicate IsErrorKey(ctx: Context, key: string) {
    exists spec, error, index {:trigger ErrorNamerOf(ctx, spec)(error, index)} ::
      key == ErrorNamerOf(ctx, spec)(error, index)
  }

  /** Keys of synthetic results: those of reported errors, and fixed texts with a number, which hold no '#'. */
  ghost predicate IsSyntheticKey(ctx: Context, key: string) {
    IsErrorKey(ctx, key) || '#' !in key
  }

  /** How the key of an error starts, after the word "error". */
  function ErrorHead(path: string, line: int32, index: nat): string {
    path + ":" + Decimal(line) + ":" + Decimal(index) + ":"
  }

  predicate IsCanonical(root: string, path: string) {
    IsLocalPath(path) || (path == "." && HasRootName(root))
  }

  ghost predicate StartsLikeError(root: string, text: string) {
    exists path, line: int32, index: nat {:trigger ErrorHead(path, line, index)} ::
      IsCanonical(root, path) && ErrorHead(path, line, index) <= text
  }

  /** The project is called "error", or "error:" and what can be read as the start of a file name or of an error. */
  ghost predicate MeetsErrors(root: string, name: string) {
    name == "error" ||
    ("error:" <= name && (IsLocalPath(name[6..] + ":") || StartsLikeError(root, name[6..] + ":")))
  }

  function NameOf(ctx: Context): string {
    ShownProject(ProjectOf(ctx))
  }

  ghost predicate IsDistinctFromErrors(ctx: Context) {
    !MeetsErrors(ctx.root, NameOf(ctx))
  }

  /** Most names are distinct from errors for a simple reason. */
  lemma OtherNamesAreDistinct(ctx: Context)
    requires NameOf(ctx) != "error" && !("error:" <= NameOf(ctx))
    ensures IsDistinctFromErrors(ctx)
  {
  }

  // ---------------------------------------------------------------- elsewhere the keys stay apart

  lemma AttemptKeyForm(name: string, path: string, canonical: string, key: string)
    requires name + "::" + path <= canonical && canonical + "#" <= key
    ensures name + "::" <= key && name + "::" + path <= key && '#' in key
  {
    assert key[|canonical|] == '#' && name + "::" <= name + "::" + path;
  }

  lemma PathFollowsName(name: string, path: string, stable: string)
    ensures name + "::" + path <= name + "::" + path + "::" + stable
  {
  }

  lemma KeyHasForm(ctx: Context, file: string, item: SpecItem, scenario: Scenario, retry: int32)
    ensures var key := KeyOf(ctx, file, item, scenario, retry);
            NameOf(ctx) + "::" <= key && NameOf(ctx) + "::" + PathOf(ctx, file, item) <= key && '#' in key
  {
    var canonical := CanonicalOf(ctx, file, item, scenario);
    PathFollowsName(NameOf(ctx), PathOf(ctx, file, item),
                    StableName(scenario.id, scenario.heading, scenario.start, scenario.end));
    KeyStartsWithCanonical(canonical, SpecRow(item), ScenarioRow(item), retry);
    AttemptKeyForm(NameOf(ctx), PathOf(ctx, file, item), canonical, KeyOf(ctx, file, item, scenario, retry));
  }

  lemma AttemptKeysHaveForm(ctx: Context, key: string)
    requires IsAttemptKey(ctx, key)
    ensures NameOf(ctx) + "::" <= key && '#' in key
  {
    var file, item, scenario, retry :| key == KeyOf(ctx, file, item, scenario, retry);
    KeyHasForm(ctx, file, item, scenario, retry);
  }

  lemma ErrorKeyForm(path: string, line: string, index: string, message: string)
    ensures "error:" + path + ":" + line + ":" + index + ":" + message ==
            "error:" + (path + ":" + line + ":" + index + ":") + message
  {
    var head := path + ":" + line + ":" + index + ":";
    assert "error:" + path + ":" + line + ":" + index + ":" == "error:" + head;
  }

  lemma ErrorKeysHaveForm(ctx: Context, key: string) returns (path: string, line: int32, index: nat)
    requires IsErrorKey(ctx, key)
    ensures IsCanonical(ctx.root, path) && "error:" <= key && ErrorHead(path, line, index) <= key[6..]
  {
    var spec, error, n :| key == ErrorNamerOf(ctx, spec)(error, n);
    var name := First([error.file, spec.file]);
    path, line, index := CanonicalPath(ctx.root, name), error.line, n;
    ErrorKeyForm(path, Decimal(line), Decimal(index), error.message);
    PathIsCanonical(ctx.root, name);
    FirstWord("error:", ErrorHead(path, line, index), error.message, key);
  }

  lemma FirstWord(word: string, head: string, rest: string, key: string)
    requires key == word + head + rest
    ensures word <= key && head <= key[|word|..]
  {
    assert key == word + (head + rest) && key[|word|..] == head + rest;
  }

  lemma PathIsCanonical(root: string, name: string)
    ensures IsCanonical(root, CanonicalPath(root, name))
  {
    CanonicalPathShape(root, name);
    if IsRootItself(root, name) {
      RootNameNeeded(root, CleanRoot(root), name);
    }
  }

  lemma ErrorTail(line: string, index: string, message: string, line': string, index': string, message': string)
    requires ':' !in line && ':' !in line' && ':' !in index && ':' !in index'
    requires line + ":" + index + ":" + message == line' + ":" + index' + ":" + message'
    ensures line == line' && index == index' && message == message'
  {
    assert line + [':'] + (index + [':'] + message) == line + ":" + index + ":" + message;
    assert line' + [':'] + (index' + [':'] + message') == line' + ":" + index' + ":" + message';
    FirstSeparatorSplits(line, line', ':', index + [':'] + message, index' + [':'] + message');
    FirstSeparatorSplits(index, index', ':', message, message');
  }

  lemma ErrorTexts(path: string, line: string, index: string, message: string, line': string, index': string,
                   message': string)
    requires ':' !in line && ':' !in line' && ':' !in index && ':' !in index'
    ensures "error:" + path + ":" + line + ":" + index + ":" + message ==
            "error:" + path + ":" + line' + ":" + index' + ":" + message' <==>
            line == line' && index == index' && message == message'
  {
    var head := "error:" + path + ":";
    var tail, tail' := line + ":" + index + ":" + message, line' + ":" + index' + ":" + message';
    assert "error:" + path + ":" + line + ":" + index + ":" + message == head + tail;
    assert "error:" + path + ":" + line' + ":" + index' + ":" + message' == head + tail';
    LastPartDiffers(head, tail, tail');
    if tail == tail' {
      ErrorTail(line, index, message, line', index', message');
    }
  }

  /** The file an error names, or that of its specification. */
  function FileOf(spec: Spec, error: GaugeError): string {
    if IsBlank(error.file) && IsBlank(spec.file) then "" else if IsBlank(error.file) then spec.file else error.file
  }

  lemma FileIsFirst(spec: Spec, error: GaugeError)
    ensures First([error.file, spec.file]) == FileOf(spec, error)
  {
    FirstExactly([error.file, spec.file], if !IsBlank(error.file) then 0 else if !IsBlank(spec.file) then 1 else 2);
  }

  lemma ErrorKeyIs(ctx: Context, spec: Spec, error: GaugeError, index: nat, path: string)
    requires CanonicalPath(ctx.root, First([error.file, spec.file])) == path
    ensures ErrorNamerOf(ctx, spec)(error, index) ==
            "error:" + path + ":" + Decimal(error.line) + ":" + Decimal(index) + ":" + error.message
  {
  }

  lemma NumbersAgree(m: int, n: int, m': int, n': int)
    ensures Decimal(m) == Decimal(m') && Decimal(n) == Decimal(n') <==> m == m' && n == n'
  {
    if Decimal(m) == Decimal(m') && Decimal(n) == Decimal(n') {
      DecimalInjective(m, m');
      DecimalInjective(n, n');
    }
  }

  /** Errors in one file have one key exactly if they stand at the same index with the same line and message. */
  lemma ErrorKeysExactly(ctx: Context, spec: Spec, error: GaugeError, index: nat, spec': Spec, error': GaugeError,
                         index': nat, path: string)
    requires path == CanonicalPath(ctx.root, FileOf(spec, error)) == CanonicalPath(ctx.root, FileOf(spec', error'))
    ensures ErrorNamerOf(ctx, spec)(error, index) == ErrorNamerOf(ctx, spec')(error', index') <==>
            error.line == error'.line && index == index' && error.message == error'.message
  {
    FileIsFirst(spec, error);
    FileIsFirst(spec', error');
    ErrorKeyIs(ctx, spec, error, index, path);
    ErrorKeyIs(ctx, spec', error', index', path);
    ErrorTexts(path, Decimal(error.line), Decimal(index), error.message, Decimal(error'.line), Decimal(index'),
               error'.message);
    NumbersAgree(error.line, index, error'.line, index');
  }

  lemma NamesBeforeErrors(name: string, key: string)
    requires name + "::" <= key && "error:" <= key
    ensures name == "error" || ("error:" <= name && name[6..] + ":" + ":" <= key[6..])
  {
    var error := "error:";
    assert key[..|name| + 2] == name + "::" && key[..6] == error;
    assert key[|name|] == ':' && forall i :: 0 <= i < 6 ==> key[i] == error[i];
    assert name[..5] == key[..5] == error[..5] == "error";
    if |name| > 5 {
      assert name[..6] == key[..6];
      assert key[6..][..|name| - 4] == key[..|name| + 2][6..] == name[6..] + ":" + ":";
    }
  }

  /** Between path and message of an error no two colons meet. */
  lemma ColonsApart(path: string, line: string, index: string, head: string, i: nat)
    requires ':' !in line && ':' !in index && line != "" && index != ""
    requires head == path + (":" + line + ":" + index + ":") && |path| <= i < |head| - 1
    ensures !(head[i] == ':' && head[i + 1] == ':')
  {
    var tail := ":" + line + ":" + index + ":";
    assert tail[|line| + 1] == ':' && tail[|line| + |index| + 2] == ':';
    assert forall k :: 0 <= k < |line| ==> tail[1 + k] == line[k];
    assert forall k :: 0 <= k < |index| ==> tail[|line| + 2 + k] == index[k];
    assert head[i] == tail[i - |path|] && head[i + 1] == tail[i + 1 - |path|];
  }

  /** Where a text goes on with two colons, the start of an error ends before them or its path goes beyond the first. */
  lemma HeadOrPath(path: string, line: string, index: string, head: string, text: string, key: string)
    requires ':' !in line && ':' !in index && line != "" && index != ""
    requires head == path + ":" + line + ":" + index + ":" && head <= key && text + ":" <= key
    requires EndsInColon(text)
    ensures head <= text || text <= path
  {
    assert head == path + (":" + line + ":" + index + ":");
    assert key[|text| - 1] == ':' && key[|text|] == ':';
    forall i: nat | |path| <= i < |head| - 1 ensures !(key[i] == ':' && key[i + 1] == ':') {
      ColonsApart(path, line, index, head, i);
    }
    assert path <= key && text <= key;
    assert |head| <= |text| || |text| <= |path|;
  }

  predicate IsCutFrom(parts: seq<string>, whole: seq<string>) {
    && 1 <= |parts| <= |whole| && parts[|parts| - 1] <= whole[|parts| - 1]
    && forall i :: 0 <= i < |parts| - 1 ==> parts[i] == whole[i]
  }

  predicate EndsInColon(text: string) {
    text != "" && text[|text| - 1] == ':'
  }

  lemma CutGrows(parts: seq<string>, whole: seq<string>, c: char)
    requires IsCutFrom(parts, whole)
    ensures IsCutFrom([""] + parts, [""] + whole)
    ensures IsCutFrom([[c] + parts[0]] + parts[1..], [[c] + whole[0]] + whole[1..])
  {
    var more, more' := [[c] + parts[0]] + parts[1..], [[c] + whole[0]] + whole[1..];
    assert forall i :: 0 < i < |parts| ==> more[i] == parts[i];
    assert forall i :: 0 < i < |whole| ==> more'[i] == whole[i];
  }

  lemma {:induction false} SplitPrefix(s: string, t: string)
    requires t <= s
    ensures IsCutFrom(Split(t, '/'), Split(s, '/'))
  {
    if t == "" {
      assert Split(t, '/') == [""];
    } else {
      assert t[0] == s[0];
      SplitPrefix(s[1..], t[1..]);
      CutGrows(Split(t[1..], '/'), Split(s[1..], '/'), t[0]);
    }
  }

  lemma {:induction false} LastPartEnds(t: string)
    requires EndsInColon(t)
    ensures EndsInColon(Split(t, '/')[|Split(t, '/')| - 1])
  {
    if |t| == 1 {
      SplitWithoutSeparator(t, '/');
    } else {
      LastPartEnds(t[1..]);
    }
  }

  /** Up to a colon, a local path is local. */
  lemma PrefixIsLocal(path: string, text: string)
    requires IsLocalPath(path) && text <= path && EndsInColon(text)
    ensures IsLocalPath(text)
  {
    var parts, whole := Split(text, '/'), Split(path, '/');
    SplitPrefix(path, text);
    LastPartEnds(text);
    SegmentCut(parts[|parts| - 1], whole[|parts| - 1]);
    forall part | part in parts ensures IsSegment(part) {
      var i :| 0 <= i < |parts| && parts[i] == part;
      assert whole[i] in whole;
    }
  }

  lemma SegmentCut(part: string, whole: string)
    requires IsSegment(whole) && part <= whole && EndsInColon(part)
    ensures IsSegment(part)
  {
    var dot, dots := ".", "..";
    assert part != dot && part != dots;
    assert forall i :: 0 <= i < |part| ==> part[i] == whole[i];
  }

  lemma DotHasNoColon(text: string)
    requires text <= "."
    ensures !EndsInColon(text)
  {
  }

  lemma HeadOrLocal(root: string, path: string, line: int32, index: nat, text: string, key: string)
    requires IsCanonical(root, path) && ErrorHead(path, line, index) <= key && text + ":" <= key && EndsInColon(text)
    ensures IsLocalPath(text) || StartsLikeError(root, text)
  {
    HeadOrPath(path, Decimal(line), Decimal(index), ErrorHead(path, line, index), text, key);
    if text <= path {
      if path == "." {
        DotHasNoColon(text);
      }
      PrefixIsLocal(path, text);
    }
  }

  lemma HeadsMeetErrors(root: string, name: string, path: string, line: int32, index: nat, key: string)
    requires IsCanonical(root, path) && name + "::" <= key && "error:" <= key
    requires ErrorHead(path, line, index) <= key[6..]
    ensures MeetsErrors(root, name)
  {
    NamesBeforeErrors(name, key);
    if name != "error" {
      HeadOrLocal(root, path, line, index, name[6..] + ":", key[6..]);
    }
  }

  lemma SharedKeysNeedErrorName(ctx: Context, key: string)
    requires IsErrorKey(ctx, key) && IsAttemptKey(ctx, key)
    ensures MeetsErrors(ctx.root, NameOf(ctx))
  {
    var path, line, index := ErrorKeysHaveForm(ctx, key);
    AttemptKeysHaveForm(ctx, key);
    HeadsMeetErrors(ctx.root, NameOf(ctx), path, line, index, key);
  }

  lemma SyntheticKeysAreNoAttempts(ctx: Context, key: string)
    requires IsDistinctFromErrors(ctx) && IsSyntheticKey(ctx, key)
    ensures !IsAttemptKey(ctx, key)
  {
    if IsAttemptKey(ctx, key) {
      AttemptKeysHaveForm(ctx, key);
      SharedKeysNeedErrorName(ctx, key);
    }
  }

  // ---------------------------------------------------------------- in these projects they meet

  /** A canonical path is that of a name both lookups find. */
  lemma NameFor(root: string, path: string, other: string) returns (name: string)
    requires "/" <= root && IsCanonical(root, path)
    ensures CanonicalPath(root, First([name, other])) == path
  {
    name := CanonicalPathsExactly(root, path);
    FirstOfTwo(name, other);
  }

  lemma FirstOfTwo(first: string, second: string)
    requires !IsBlank(first)
    ensures First([first, second]) == first
  {
  }

  lemma ErrorKeyText(ctx: Context, spec: Spec, error: GaugeError, index: nat, path: string)
    requires path == CanonicalPath(ctx.root, First([error.file, spec.file]))
    ensures ErrorNamerOf(ctx, spec)(error, index) == "error:" + ErrorHead(path, error.line, index) + error.message
  {
    ErrorKeyForm(path, Decimal(error.line), Decimal(index), error.message);
  }

  lemma WordHeadRest(word: string, head: string, key: string)
    requires word <= key && head <= key[|word|..]
    ensures key == word + head + key[|word|..][|head|..]
  {
    assert key == word + key[|word|..] && key[|word|..] == head + key[|word|..][|head|..];
  }

  lemma ErrorHasKey(ctx: Context, spec: Spec, error: GaugeError, index: nat, path: string, head: string, key: string)
    requires path == CanonicalPath(ctx.root, First([error.file, spec.file]))
    requires head == ErrorHead(path, error.line, index) && key == "error:" + head + error.message
    ensures IsErrorKey(ctx, key)
  {
    ErrorKeyText(ctx, spec, error, index, path);
  }

  lemma ErrorOf(ctx: Context, name: string, path: string, line: int32, index: nat, head: string, key: string)
    requires path == CanonicalPath(ctx.root, First([name, ""])) && head == ErrorHead(path, line, index)
    requires "error:" <= key && head <= key[6..]
    ensures IsErrorKey(ctx, key)
  {
    WordHeadRest("error:", head, key);
    ErrorHasKey(ctx, Spec("", false, [], true), GaugeError(name, line, key[6..][|head|..]), index, path, head, key);
  }

  lemma LikeErrorIsError(ctx: Context, path: string, line: int32, index: nat, key: string)
    requires "/" <= ctx.root && IsCanonical(ctx.root, path)
    requires "error:" <= key && ErrorHead(path, line, index) <= key[6..]
    ensures IsErrorKey(ctx, key)
  {
    var name := NameFor(ctx.root, path, "");
    ErrorOf(ctx, name, path, line, index, ErrorHead(path, line, index), key);
  }

  lemma AttemptIn(ctx: Context, path: string) returns (key: string)
    requires "/" <= ctx.root && IsLocalPath(path)
    ensures IsAttemptKey(ctx, key) && NameOf(ctx) + "::" <= key && NameOf(ctx) + "::" + path <= key
  {
    var name := NameFor(ctx.root, path, "");
    var item := SpecItem(OtherKind, "", None, None, None);
    var scenario := Scenario("", "", 0, 0, 0, 0, StatusPassed, false, false, true, [], [], []);
    key := AttemptWith(ctx, path, name, item, scenario);
  }

  lemma AttemptWith(ctx: Context, path: string, name: string, item: SpecItem, scenario: Scenario)
    returns (key: string)
    requires PathOf(ctx, name, item) == path
    ensures IsAttemptKey(ctx, key) && NameOf(ctx) + "::" <= key && NameOf(ctx) + "::" + path <= key
  {
    key := KeyOf(ctx, name, item, scenario, 0);
    KeyHasForm(ctx, name, item, scenario, 0);
  }

  lemma OneSegment(path: string)
    requires IsSegment(path)
    ensures IsLocalPath(path)
  {
    SplitWithoutSeparator(path, '/');
  }

  lemma SmallDecimals(zero: nat, one: int32)
    requires zero == 0 && one == 1
    ensures Decimal(zero) == "0" && Decimal(one) == "1"
  {
  }

  lemma SmallHead(file: string, zero: nat, one: int32)
    requires zero == 0 && one == 1
    ensures ErrorHead(file, one, zero) == file + ":1:0:"
  {
    SmallDecimals(zero, one);
    assert file + ":" + "1" + ":" + "0" + ":" == file + ":1:0:";
  }

  lemma HeadAfterWord(name: string, file: string, path: string, key: string)
    requires name == "error" && file == ":p" && path == "p:1:0:x" && name + "::" + path <= key
    ensures "error:" <= key && file + ":1:0:" <= key[6..]
  {
    var start, head := name + "::" + path, file + ":1:0:";
    assert start == "error::p:1:0:x" && head == ":p:1:0:";
    assert start[6..13] == head && key[..|start|] == start && key[6..][..7] == start[6..13];
  }

  lemma HeadAfterPath(name: string, file: string, path: string, key: string)
    requires "error:" <= name && file == name[6..] + ":" && path == "1:0:x" && name + "::" + path <= key
    ensures "error:" <= key && file + ":1:0:" <= key[6..]
  {
    var start, head := name + "::" + path, file + ":1:0:";
    assert start == name + "::1:0:x" == name + "::1:0:" + "x";
    assert start[..|start| - 1][6..] == head && key[..|start|] == start;
    assert key[6..][..|head|] == start[..|start| - 1][6..];
  }

  lemma HeadBeforeColon(name: string, head: string, key: string)
    requires "error:" <= name && head <= name[6..] + ":" && name + "::" <= key
    ensures "error:" <= key && head <= key[6..]
  {
    var start := name + "::";
    assert key[..|start|] == start && start[6..][..|name| - 5] == name[6..] + ":";
    assert key[6..][..|name| - 5] == name[6..] + ":";
  }

  lemma ErrorInLineOne(ctx: Context, file: string, key: string)
    requires "/" <= ctx.root && IsLocalPath(file) && "error:" <= key && file + ":1:0:" <= key[6..]
    ensures IsErrorKey(ctx, key)
  {
    SmallHead(file, 0, 1);
    LikeErrorIsError(ctx, file, 1, 0, key);
  }

  lemma ErrorInside(ctx: Context, name: string, key: string)
    requires "/" <= ctx.root && "error:" <= name && name + "::" <= key && StartsLikeError(ctx.root, name[6..] + ":")
    ensures IsErrorKey(ctx, key)
  {
    var path, line: int32, index: nat :|
      IsCanonical(ctx.root, path) && ErrorHead(path, line, index) <= name[6..] + ":";
    HeadBeforeColon(name, ErrorHead(path, line, index), key);
    LikeErrorIsError(ctx, path, line, index, key);
  }

  /** The file of an attempt that shares its key with an error. */
  predicate IsCollisionPath(name: string, path: string) {
    path == if name == "error" then "p:1:0:x" else "1:0:x"
  }

  lemma CollisionPath(name: string) returns (path: string)
    ensures IsCollisionPath(name, path) && IsLocalPath(path)
  {
    path := if name == "error" then "p:1:0:x" else "1:0:x";
    OneSegment(path);
  }

  /**
   * In a project called "error", the key of an attempt in the file "p:1:0:x" is that of an error in line 1 of the file
   * ":p"; in one called "error:" and the start of a file name, that of an error in line 1 of a file.
   */
  lemma Collides(ctx: Context, name: string, path: string, key: string)
    requires "/" <= ctx.root && MeetsErrors(ctx.root, name) && name + "::" <= key && name + "::" + path <= key
    requires IsCollisionPath(name, path)
    ensures IsErrorKey(ctx, key)
  {
    if name == "error" {
      OneSegment(":p");
      HeadAfterWord(name, ":p", path, key);
      ErrorInLineOne(ctx, ":p", key);
    } else if IsLocalPath(name[6..] + ":") {
      HeadAfterPath(name, name[6..] + ":", path, key);
      ErrorInLineOne(ctx, name[6..] + ":", key);
    } else {
      ErrorInside(ctx, name, key);
    }
  }

  /** A project whose name meets errors has an error and an attempt with one key. */
  lemma ErrorProjectCollides(ctx: Context, name: string) returns (path: string, key: string)
    requires "/" <= ctx.root && name == NameOf(ctx) && MeetsErrors(ctx.root, name)
    ensures IsAttemptKey(ctx, key) && IsErrorKey(ctx, key)
    ensures IsCollisionPath(name, path) && name + "::" + path <= key
  {
    path := CollisionPath(name);
    key := AttemptIn(ctx, path);
    Collides(ctx, name, path, key);
  }

  /** Some synthetic result can get the key of an attempt exactly in the projects whose names meet errors. */
  lemma SyntheticKeysMeetExactly(ctx: Context)
    requires "/" <= ctx.root
    ensures (exists key :: IsSyntheticKey(ctx, key) && IsAttemptKey(ctx, key)) <==> MeetsErrors(ctx.root, NameOf(ctx))
  {
    if IsDistinctFromErrors(ctx) {
      forall key | IsSyntheticKey(ctx, key) ensures !IsAttemptKey(ctx, key) {
        SyntheticKeysAreNoAttempts(ctx, key);
      }
    } else {
      var path, key := ErrorProjectCollides(ctx, NameOf(ctx));
      assert IsSyntheticKey(ctx, key);
    }
  }

  // ---------------------------------------------------------------- the keys of a plan

  /** Every entry has the key its kind calls for. */
  ghost predicate HasProperKeys(ctx: Context, plan: seq<Planned>) {
    forall p <- plan :: p.Synthetic? ==> IsSyntheticKey(ctx, p.key)
  }

  lemma {:induction false} ErrorsHaveProperKeys(ctx: Context, namer: ErrorNamer, errors: seq<Option<GaugeError>>,
                                                index: nat, at: int64)
    requires forall error, n :: IsErrorKey(ctx, namer(error, n))
    ensures HasProperKeys(ctx, PlanErrors(namer, errors, index, at))
  {
    if errors != [] {
      ErrorsHaveProperKeys(ctx, namer, errors[1..], index + 1, at);
    }
  }

  lemma {:induction false} TimedAreAttempts(spec: Spec, seeds: seq<Seed>, cursor: int64, specRange: Range,
                                            live: map<string, LiveInfo>)
    ensures forall p <- Timed(spec, seeds, cursor, specRange, live) :: p.Attempt?
  {
    if seeds != [] {
      TimedAreAttempts(spec, seeds[1..], Max(cursor, LiveOf(seeds[0], cursor, specRange, live).range.stop), specRange,
                       live);
    }
  }

  lemma ErrorNamerNames(ctx: Context, spec: Spec)
    ensures forall error, n :: IsErrorKey(ctx, ErrorNamerOf(ctx, spec)(error, n))
  {
    forall error: GaugeError, n: nat ensures IsErrorKey(ctx, ErrorNamerOf(ctx, spec)(error, n)) {
    }
  }

  lemma GapKeys(index: nat)
    ensures '#' !in "protocol:nil-spec:" + Decimal(index) && '#' !in "protocol:missing-proto-spec:" + Decimal(index)
  {
    var prefix, prefix' := "protocol:nil-spec:", "protocol:missing-proto-spec:";
    assert '#' !in prefix && '#' !in prefix' && '#' !in Decimal(index);
  }

  lemma ContentHasProperKeys(ctx: Context, spec: Spec, errors: seq<Option<GaugeError>>, at: int64, specRange: Range,
                             live: map<string, LiveInfo>)
    ensures HasProperKeys(ctx, PlanContent(ctx, spec, errors, at, specRange, live))
  {
    ErrorNamerNames(ctx, spec);
    ErrorsHaveProperKeys(ctx, ErrorNamerOf(ctx, spec), errors, 0, at);
    TimedAreAttempts(spec, Seeds(SeederOf(ctx, spec), spec.items), specRange.start, specRange, live);
  }

  lemma {:induction false} SpecsHaveProperKeys(ctx: Context, specs: seq<Option<SpecResult>>, index: nat,
                                               suiteRange: Range, live: map<string, LiveInfo>)
    ensures HasProperKeys(ctx, PlanSpecs(SpecPlannerOf(ctx, suiteRange, live), specs, index))
  {
    if specs != [] {
      SpecsHaveProperKeys(ctx, specs[1..], index + 1, suiteRange, live);
      GapKeys(index);
      match specs[0]
      case Some(SpecResult(Some(spec), errors, timestamp, duration)) =>
        ContentHasProperKeys(ctx, spec, errors, if timestamp.Some? then MillisOf(timestamp.value) else suiteRange.start,
                             Resolve(timestamp, duration, At(suiteRange.start)), live);
      case _ =>
    }
  }

  lemma PlanHasProperKeys(ctx: Context, suite: SuiteResult, now: Instant, live: map<string, LiveInfo>,
                          existing: map<string, string>, plan: seq<Planned>)
    requires M.IsDelivered(ctx, suite, now, live, existing, plan)
    ensures HasProperKeys(ctx, plan)
  {
    var all := PlanSpecs(SpecPlannerOf(ctx, SuiteRange(suite, now), live), suite.specs, 0);
    SpecsHaveProperKeys(ctx, suite.specs, 0, SuiteRange(suite, now), live);
    var empty := "suite:empty";
    assert '#' !in empty;
    if M.IsKept(existing, plan, all) {
      M.KeptIsNoLonger(existing, plan, all);
    }
  }
}
