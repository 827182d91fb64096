/** internal/output/writer.go, write: temporary files, size checks and atomic replacement. */
module Writer {
  import opened Wrappers
  import opened Identity
  import opened ArtifactNames

  /** File contents; one character stands for one byte. */
  type Bytes = string

  /** One call of write: everything its reader delivers up to the end, and the announced size (negative: none). */
  datatype Call = Call(name: string, content: Bytes, expected: int)

  /** Names that reach a file in the results directory: base names that are not the directory or its parent. */
  predicate IsSafe(name: string) {
    Base(name) == name && name != "." && name != "" && name != ".." && '/' !in name
  }

  /** The checks between copying and publishing. */
  predicate SizeAccepted(call: Call, maxBytes: int) {
    && !(|call.content| > maxBytes && Contains(call.name, ATTACHMENT_INFIX))
    && (call.expected >= 0 ==> |call.content| == call.expected)
  }

  /** These are the names that are one path segment and have no meaning of their own. */
  lemma SafeExactly(name: string)
    ensures IsSafe(name) <==> name != "" && '/' !in name && name != "." && name != ".."
  {
    if name != "" && '/' !in name {
      assert name[|name| - 1] in name && TrimTrailingSlashes(name) == name;
    }
  }

  /** The announced size is binding, and the limit is one for attachments alone. */
  lemma SizeAcceptedExactly(call: Call, maxBytes: int)
    ensures SizeAccepted(call, maxBytes) <==>
            && (call.expected < 0 || |call.content| == call.expected)
            && (|call.content| <= maxBytes ||
                forall before: string, after: string :: call.name != before + "-attachment." + after)
  {
    PartExactly(call.name, ATTACHMENT_INFIX);
  }

  // ---------------------------------------------------------------- one call as the source runs it

  /** Where a call meets an error of its environment; `readFailsAt` counts the bytes delivered before it. */
  datatype Faults = Faults(cancelled: bool, createFails: bool, readFailsAt: Option<nat>, finishFails: bool,
                           cancelledLate: bool, replaceFails: bool, removeFails: bool)

  class ResultsDirectory {
    const maxBytes: int
    var files: map<string, Bytes>

    constructor (maxBytes: int)
      ensures this.maxBytes == maxBytes && files == map[]
    {
      this.maxBytes := maxBytes;
      files := map[];
    }

    /** io.Copy: the first `readable` bytes, chunk by chunk. */
    method Copy(temp: string, content: Bytes, readable: nat, chunk: nat)
      requires chunk > 0 && readable <= |content| && temp in files && files[temp] == []
      modifies this
      ensures files == old(files)[temp := content[..readable]]
    {
      var written := 0;
      while written < readable
        invariant 0 <= written <= readable
        invariant files == old(files)[temp := content[..written]]
      {
        var next := if written + chunk <= readable then written + chunk else readable;
        assert content[..next] == content[..written] + content[written..next];
        files := files[temp := files[temp] + content[written..next]];
        written := next;
      }
    }

    /**
     * write without interference. It succeeds exactly when nothing goes wrong, and then changes one
     * name to the whole content; otherwise at most its own temporary file is left behind.
     */
    method Write(call: Call, temp: string, chunk: nat, faults: Faults) returns (ok: bool)
      requires chunk > 0 && temp !in files && temp != call.name
      modifies this
      ensures ok <==> IsSafe(call.name) && SizeAccepted(call, maxBytes) && NoFault(faults, |call.content|)
      ensures ok ==> files == old(files)[call.name := call.content]
      ensures !ok && !faults.removeFails ==> files == old(files)
      ensures !ok ==> forall name :: name != temp ==> At(files, name) == At(old(files), name)
    {
      if faults.cancelled || !IsSafe(call.name) || faults.createFails {
        return false;
      }
      files := files[temp := []];
      var keep := false;
      var copied := faults.readFailsAt.None? || faults.readFailsAt.value > |call.content|;
      var readable := if copied then |call.content| else faults.readFailsAt.value;
      Copy(temp, call.content, readable, chunk);
      if copied && SizeAccepted(call, maxBytes) && !faults.finishFails && !faults.cancelledLate &&
        !faults.replaceFails {
        assert call.content[..readable] == call.content;
        files := files[call.name := files[temp]] - {temp};
        keep := true;
      }
      ok := keep;
      if !keep && !faults.removeFails {
        files := files - {temp};
      }
    }
  }

  /** Nothing but removing the temporary file may go wrong. */
  predicate NoFault(faults: Faults, size: nat) {
    && !faults.cancelled && !faults.createFails && !faults.finishFails && !faults.cancelledLate && !faults.replaceFails
    && (faults.readFailsAt.None? || faults.readFailsAt.value > size)
  }

  // ---------------------------------------------------------------- any number of concurrent calls

  datatype Phase =
    | Waiting
    | Copying(temp: string, copied: nat)
    | Ready(temp: string)
    | Cleaning(temp: string)
    | Done(ok: bool)

  /** The files of the results directory and how far each call is. */
  datatype State = State(files: map<string, Bytes>, phases: seq<Phase>)

  /** The calls of a run and the choice of temporary names; a call is known by its index. */
  datatype System = System(maxBytes: int, calls: seq<Call>, temps: TempNames)

  /** Which temporary files may serve to write a file. */
  type TempNames = (string, string) -> bool

  /** os.CreateTemp as write calls it. */
  ghost function CreateTemp(): TempNames {
    (name: string, temp: string) => IsSafe(name) && exists random: uint32 :: temp == TempName(name, random)
  }

  /** Temporary names are longer. */
  ghost predicate IsUsual(temps: TempNames) {
    forall name: string, temp: string :: temps(name, temp) ==> |temp| > |name|
  }

  /** There is a temporary name for writing this file. */
  ghost predicate IsWritable(temps: TempNames, name: string) {
    exists temp: string :: temps(name, temp)
  }

  lemma CreateTempIsUsual()
    ensures IsUsual(CreateTemp())
    ensures forall name: string :: IsWritable(CreateTemp(), name) <==> IsSafe(name)
  {
    forall name: string, temp: string | CreateTemp()(name, temp) ensures |temp| > |name| {
      var random: uint32 :| temp == TempName(name, random);
      TempNameIsTemp(name, random);
    }
    forall name: string | IsSafe(name) ensures IsWritable(CreateTemp(), name) {
      assert CreateTemp()(name, TempName(name, 0));
    }
  }

  ghost predicate Initial(sys: System, s: State) {
    |s.phases| == |sys.calls| && forall i :: 0 <= i < |s.phases| ==> s.phases[i] == Waiting
  }

  ghost predicate Begins(temps: TempNames, call: Call, files: map<string, Bytes>, files': map<string, Bytes>,
                         phase': Phase) {
    && phase'.Copying? && phase'.copied == 0
    && phase'.temp !in files
    && temps(call.name, phase'.temp)
    && files' == files[phase'.temp := []]
  }

  /** What one call may do next, alone; each disjunct is one step, and any step may also fail. */
  ghost predicate CallStep(sys: System, call: Call, files: map<string, Bytes>, phase: Phase, files': map<string, Bytes>,
                           phase': Phase) {
    match phase
    case Waiting => Begins(sys.temps, call, files, files', phase') || (files' == files && phase' == Done(false))
    case Copying(temp, copied) =>
      || (files' == files && phase' == Cleaning(temp))
      || (exists next {:trigger call.content[copied..next]} ::
            copied < next <= |call.content| && temp in files && phase' == Copying(temp, next)
                      && files' == files[temp := files[temp] + call.content[copied..next]])
      || (files' == files && copied == |call.content| &&
          phase' == if SizeAccepted(call, sys.maxBytes) then Ready(temp) else Cleaning(temp))
    case Ready(temp) =>
      || (files' == files && phase' == Cleaning(temp))
      || (temp in files && files' == files[call.name := files[temp]] - {temp} && phase' == Done(true))
    case Cleaning(temp) => (files' == files || files' == files - {temp}) && phase' == Done(false)
    case Done(_) => false
  }

  ghost predicate StepBy(sys: System, s: State, s': State, id: nat) {
    && id < |sys.calls| == |s.phases| == |s'.phases|
    && s'.phases == s.phases[id := s'.phases[id]]
    && CallStep(sys, sys.calls[id], s.files, s.phases[id], s'.files, s'.phases[id])
  }

  ghost predicate Next(sys: System, s: State, s': State) {
    exists id {:trigger StepBy(sys, s, s', id)} :: StepBy(sys, s, s', id)
  }

  /** A run: it may stop anywhere, as a killed process would. */
  ghost predicate IsRun(sys: System, run: seq<State>) {
    && run != [] && Initial(sys, run[0])
    && forall i :: 0 <= i < |run| - 1 ==> Next(sys, run[i], run[i + 1])
  }

  /** A name one of these calls may choose for its temporary file. */
  predicate IsTempOf(temps: TempNames, names: seq<string>, temp: string) {
    exists i :: 0 <= i < |names| && temps(names[i], temp)
  }

  /** No file to be written is one that another call may use as its temporary file. */
  ghost predicate NamesApart(temps: TempNames, names: seq<string>) {
    forall i :: 0 <= i < |names| && IsWritable(temps, names[i]) ==> !IsTempOf(temps, names, names[i])
  }

  function NamesOf(sys: System): (names: seq<string>)
    ensures |names| == |sys.calls|
  {
    seq(|sys.calls|, i requires 0 <= i < |sys.calls| => sys.calls[i].name)
  }

  /** The program's own artifacts never are. */
  lemma ArtifactsStayApart(names: seq<string>)
    requires forall i :: 0 <= i < |names| ==> IsArtifactName(names[i])
    ensures NamesApart(CreateTemp(), names)
  {
    forall i, j | 0 <= i < |names| && 0 <= j < |names| && CreateTemp()(names[j], names[i]) ensures false {
      var random: uint32 :| names[i] == TempName(names[j], random);
      TempNameIsTemp(names[j], random);
      ArtifactNamesAreNotTemp(names[i]);
    }
  }

  function TempOf(phase: Phase): Option<string> {
    match phase
    case Copying(temp, _) => Some(temp)
    case Ready(temp) => Some(temp)
    case Cleaning(temp) => Some(temp)
    case _ => None
  }

  /** The content of a name, if there is such a file. */
  function At(files: map<string, Bytes>, name: string): Option<Bytes> {
    if name in files then Some(files[name]) else None
  }

  predicate Serves(sys: System, i: nat, temp: string) {
    i < |sys.calls| && sys.temps(sys.calls[i].name, temp)
  }

  lemma ServingIsTemp(sys: System, i: nat, temp: string)
    requires Serves(sys, i, temp)
    ensures IsTempOf(sys.temps, NamesOf(sys), temp)
  {
    assert NamesOf(sys)[i] == sys.calls[i].name;
  }

  lemma ServingIsNotTaken(sys: System, i: nat, temp: string, id: nat)
    requires NamesApart(sys.temps, NamesOf(sys)) && Serves(sys, i, temp)
    requires id < |sys.calls| && IsWritable(sys.temps, sys.calls[id].name)
    ensures temp != sys.calls[id].name
  {
    ServingIsTemp(sys, i, temp);
    assert NamesOf(sys)[id] == sys.calls[id].name;
  }

  ghost predicate TempsApart(sys: System, s: State) {
    && (forall i :: 0 <= i < |s.phases| && TempOf(s.phases[i]).Some? ==>
          TempOf(s.phases[i]).value in s.files && Serves(sys, i, TempOf(s.phases[i]).value))
    && (forall i, j :: 0 <= i < j < |s.phases| && TempOf(s.phases[i]).Some? && TempOf(s.phases[j]).Some? ==>
          TempOf(s.phases[i]).value != TempOf(s.phases[j]).value)
  }

  ghost predicate TempsHoldPrefixes(sys: System, s: State)
    requires |s.phases| == |sys.calls| && TempsApart(sys, s)
  {
    forall i :: 0 <= i < |s.phases| ==>
      match s.phases[i]
      case Copying(temp, copied) => copied <= |sys.calls[i].content| && s.files[temp] == sys.calls[i].content[..copied]
      case Ready(temp) => s.files[temp] == sys.calls[i].content && SizeAccepted(sys.calls[i], sys.maxBytes)
      case Done(ok) => ok ==> SizeAccepted(sys.calls[i], sys.maxBytes)
      case _ => true
  }

  /** A successful call that wrote these bytes under this name. */
  ghost predicate WrittenBy(sys: System, s: State, name: string, content: Bytes, id: nat)
    requires |s.phases| == |sys.calls|
  {
    id < |sys.calls| && s.phases[id] == Done(true) && sys.calls[id].name == name && sys.calls[id].content == content
  }

  ghost predicate Published(sys: System, before: map<string, Bytes>, s: State)
    requires |s.phases| == |sys.calls|
  {
    forall name {:trigger At(s.files, name)} ::
      !IsTempOf(sys.temps, NamesOf(sys), name) && At(s.files, name) != At(before, name) ==>
      name in s.files && exists id: nat :: WrittenBy(sys, s, name, s.files[name], id)
  }

  ghost predicate Invariant(sys: System, before: map<string, Bytes>, s: State) {
    && |s.phases| == |sys.calls|
    && TempsApart(sys, s)
    && TempsHoldPrefixes(sys, s)
    && Published(sys, before, s)
  }

  // ---------------------------------------------------------------- what every step keeps

  /** What one step does to the directory, seen from outside the call. */
  lemma StepEffect(sys: System, before: map<string, Bytes>, s: State, s': State, id: nat)
    requires NamesApart(sys.temps, NamesOf(sys)) && Invariant(sys, before, s) && StepBy(sys, s, s', id)
    ensures forall name ::
              && TempOf(s.phases[id]) != Some(name) && TempOf(s'.phases[id]) != Some(name)
              && name != sys.calls[id].name ==>
              At(s'.files, name) == At(s.files, name)
    ensures var name := sys.calls[id].name;
            !IsTempOf(sys.temps, NamesOf(sys), name) && At(s'.files, name) != At(s.files, name) ==>
              s.phases[id].Ready? && s'.phases[id] == Done(true) && At(s'.files, name) == Some(sys.calls[id].content)
    ensures TempOf(s.phases[id]).Some? && TempOf(s'.phases[id]).Some? ==> TempOf(s'.phases[id]) == TempOf(s.phases[id])
    ensures TempOf(s'.phases[id]).Some? ==>
      TempOf(s'.phases[id]).value in s'.files && Serves(sys, id, TempOf(s'.phases[id]).value)
    ensures s.phases[id] != Done(true) && s.phases[id] != Done(false)
  {
    var name := sys.calls[id].name;
    if TempOf(s'.phases[id]).Some? && TempOf(s'.phases[id]).value == name {
      ServingIsTemp(sys, id, name);
    }
    if TempOf(s.phases[id]).Some? && TempOf(s.phases[id]).value == name {
      ServingIsTemp(sys, id, name);
    }
  }

  /** A published name changes only when its own call publishes it. */
  lemma OnlyOwnNameChanges(sys: System, before: map<string, Bytes>, s: State, s': State, id: nat, name: string)
    requires NamesApart(sys.temps, NamesOf(sys)) && Invariant(sys, before, s) && StepBy(sys, s, s', id)
    requires !IsTempOf(sys.temps, NamesOf(sys), name) && At(s'.files, name) != At(s.files, name)
    ensures name == sys.calls[id].name && s.phases[id].Ready? && s'.phases[id] == Done(true)
    ensures At(s'.files, name) == Some(sys.calls[id].content)
  {
    StepEffect(sys, before, s, s', id);
    if TempOf(s'.phases[id]) == Some(name) || TempOf(s.phases[id]) == Some(name) {
      ServingIsTemp(sys, id, name);
    }
  }

  lemma StepKeepsTempsApart(sys: System, before: map<string, Bytes>, s: State, s': State, id: nat)
    requires NamesApart(sys.temps, NamesOf(sys)) && Invariant(sys, before, s) && StepBy(sys, s, s', id)
    ensures TempsApart(sys, s')
  {
    StepEffect(sys, before, s, s', id);
    forall i | 0 <= i < |s'.phases| && i != id && TempOf(s'.phases[i]).Some?
      ensures TempOf(s'.phases[i]).value in s'.files && TempOf(s'.phases[i]) != TempOf(s'.phases[id])
    {
      OthersKeepTheirTemp(sys, before, s, s', id, i);
    }
    forall i, j | 0 <= i < j < |s'.phases| && TempOf(s'.phases[i]).Some? && TempOf(s'.phases[j]).Some?
      ensures TempOf(s'.phases[i]).value != TempOf(s'.phases[j]).value
    {
    }
  }

  /** A step leaves the temporary files of all other calls alone. */
  lemma OthersKeepTheirTemp(sys: System, before: map<string, Bytes>, s: State, s': State, id: nat, i: nat)
    requires NamesApart(sys.temps, NamesOf(sys)) && Invariant(sys, before, s) && StepBy(sys, s, s', id)
    requires i < |s.phases| && i != id && TempOf(s.phases[i]).Some?
    ensures s'.phases[i] == s.phases[i] && TempOf(s'.phases[id]) != TempOf(s.phases[i])
    ensures TempOf(s.phases[i]).value in s.files
    ensures At(s'.files, TempOf(s.phases[i]).value) == At(s.files, TempOf(s.phases[i]).value)
  {
    if s.phases[id].Ready? {
      assert Serves(sys, id, s.phases[id].temp);
      ServingIsNotTaken(sys, i, TempOf(s.phases[i]).value, id);
    }
  }

  lemma StepKeepsPrefixes(sys: System, before: map<string, Bytes>, s: State, s': State, id: nat)
    requires NamesApart(sys.temps, NamesOf(sys)) && Invariant(sys, before, s) && StepBy(sys, s, s', id)
    requires TempsApart(sys, s')
    ensures TempsHoldPrefixes(sys, s')
  {
    forall i | 0 <= i < |s'.phases| && i != id && TempOf(s'.phases[i]).Some?
      ensures At(s'.files, TempOf(s'.phases[i]).value) == At(s.files, TempOf(s'.phases[i]).value)
    {
      OthersKeepTheirTemp(sys, before, s, s', id, i);
    }
    var call := sys.calls[id];
    match s.phases[id]
    case Copying(temp, copied) =>
      if s'.phases[id].Copying? {
        var next := s'.phases[id].copied;
        assert call.content[..next] == call.content[..copied] + call.content[copied..next];
      } else if s'.phases[id].Ready? {
        assert call.content[..copied] == call.content;
      }
    case _ =>
  }

  lemma StepKeepsPublished(sys: System, before: map<string, Bytes>, s: State, s': State, id: nat)
    requires NamesApart(sys.temps, NamesOf(sys)) && Invariant(sys, before, s) && StepBy(sys, s, s', id)
    requires |s'.phases| == |sys.calls|
    ensures Published(sys, before, s')
  {
    StepEffect(sys, before, s, s', id);
    forall name | !IsTempOf(sys.temps, NamesOf(sys), name) && At(s'.files, name) != At(before, name)
      ensures name in s'.files && exists j: nat :: WrittenBy(sys, s', name, s'.files[name], j)
    {
      if At(s'.files, name) != At(s.files, name) {
        OnlyOwnNameChanges(sys, before, s, s', id, name);
        assert WrittenBy(sys, s', name, s'.files[name], id);
      } else {
        var j: nat :| WrittenBy(sys, s, name, s.files[name], j);
        assert WrittenBy(sys, s', name, s'.files[name], j);
      }
    }
  }

  lemma StepKeepsInvariant(sys: System, before: map<string, Bytes>, s: State, s': State)
    requires NamesApart(sys.temps, NamesOf(sys)) && Invariant(sys, before, s) && Next(sys, s, s')
    ensures Invariant(sys, before, s')
  {
    var id :| StepBy(sys, s, s', id);
    StepKeepsTempsApart(sys, before, s, s', id);
    StepKeepsPrefixes(sys, before, s, s', id);
    StepKeepsPublished(sys, before, s, s', id);
  }

  lemma {:induction false} RunKeepsInvariant(sys: System, run: seq<State>)
    requires NamesApart(sys.temps, NamesOf(sys)) && IsRun(sys, run)
    ensures Invariant(sys, run[0].files, run[|run| - 1])
    decreases |run|
  {
    if |run| > 1 {
      var shorter := run[..|run| - 1];
      assert forall i :: 0 <= i < |shorter| - 1 ==> Next(sys, run[i], run[i + 1]);
      RunKeepsInvariant(sys, shorter);
      StepKeepsInvariant(sys, run[0].files, shorter[|shorter| - 1], run[|run| - 1]);
    }
  }

  /** At the end the name holds its old content, or all bytes of one successful call for it, of accepted size. */
  ghost predicate IsWhole(sys: System, run: seq<State>, name: string)
    requires run != []
  {
    var last := run[|run| - 1];
    || At(last.files, name) == At(run[0].files, name)
    || exists id ::
         && 0 <= id < |sys.calls| == |last.phases| && last.phases[id] == Done(true)
         && sys.calls[id].name == name && At(last.files, name) == Some(sys.calls[id].content)
         && SizeAccepted(sys.calls[id], sys.maxBytes)
  }

  /**
   * Whenever any number of concurrent calls is stopped, every published name holds what it held before
   * or all the bytes of one successful call for that name, of the announced length.
   */
  lemma ReadersSeeWholeFiles(sys: System, run: seq<State>, name: string)
    requires NamesApart(sys.temps, NamesOf(sys)) && IsRun(sys, run) && !IsTempOf(sys.temps, NamesOf(sys), name)
    ensures IsWhole(sys, run, name)
  {
    RunKeepsInvariant(sys, run);
    var last := run[|run| - 1];
    if At(last.files, name) != At(run[0].files, name) {
      var id: nat :| WrittenBy(sys, last, name, last.files[name], id);
      assert last.phases[id] == Done(true) && At(last.files, name) == Some(sys.calls[id].content);
    }
  }

  lemma {:induction false} DoneIsFinal(sys: System, run: seq<State>, i: nat, id: nat, ok: bool)
    requires IsRun(sys, run) && i < |run| && id < |sys.calls| == |run[i].phases| && run[i].phases[id] == Done(ok)
    ensures |run[|run| - 1].phases| == |sys.calls| && run[|run| - 1].phases[id] == Done(ok)
    decreases |run| - i
  {
    if i < |run| - 1 {
      assert Next(sys, run[i], run[i + 1]);
      DoneIsFinal(sys, run, i + 1, id, ok);
    }
  }

  lemma PrefixOfRun(sys: System, run: seq<State>, i: nat)
    requires IsRun(sys, run) && i < |run|
    ensures IsRun(sys, run[..i + 1])
  {
  }

  /** Whoever changes a published name succeeds: a call that fails, or never ends, changes none. */
  lemma OnlySuccessesPublish(sys: System, run: seq<State>, i: nat, name: string)
    requires NamesApart(sys.temps, NamesOf(sys)) && IsRun(sys, run) && i < |run| - 1
    requires !IsTempOf(sys.temps, NamesOf(sys), name)
    requires At(run[i].files, name) != At(run[i + 1].files, name)
    ensures exists id: nat ::
      && id < |sys.calls| == |run[|run| - 1].phases|
      && StepBy(sys, run[i], run[i + 1], id)
      && sys.calls[id].name == name && run[|run| - 1].phases[id] == Done(true)
  {
    PrefixOfRun(sys, run, i);
    RunKeepsInvariant(sys, run[..i + 1]);
    assert Next(sys, run[i], run[i + 1]);
    var id: nat :| StepBy(sys, run[i], run[i + 1], id);
    OnlyOwnNameChanges(sys, run[0].files, run[i], run[i + 1], id, name);
    DoneIsFinal(sys, run, i + 1, id, true);
  }

  // ---------------------------------------------------------------- a name that looks like a temporary file

  ghost predicate IsPath(sys: System, path: seq<State>) {
    path != [] && forall i :: 0 <= i < |path| - 1 ==> Next(sys, path[i], path[i + 1])
  }

  lemma PathsJoin(sys: System, p: seq<State>, q: seq<State>) returns (path: seq<State>)
    requires IsPath(sys, p) && IsPath(sys, q) && p[|p| - 1] == q[0]
    ensures IsPath(sys, path) && path[0] == p[0] && path[|path| - 1] == q[|q| - 1]
  {
    path := p + q[1..];
    forall i | 0 <= i < |path| - 1 ensures Next(sys, path[i], path[i + 1]) {
      if i >= |p| - 1 {
        assert path[i] == q[i - |p| + 1] && path[i + 1] == q[i - |p| + 2];
      }
    }
  }

  lemma OneStep(sys: System, s: State, id: nat, files: map<string, Bytes>, phase: Phase) returns (path: seq<State>)
    requires id < |sys.calls| == |s.phases| && CallStep(sys, sys.calls[id], s.files, s.phases[id], files, phase)
    ensures IsPath(sys, path) && path[0] == s && path[|path| - 1] == State(files, s.phases[id := phase])
  {
    var s' := State(files, s.phases[id := phase]);
    assert StepBy(sys, s, s', id);
    path := [s, s'];
  }

  /** A call that copies everything and passes the checks. */
  lemma GetsReady(sys: System, s: State, id: nat, temp: string) returns (path: seq<State>)
    requires id < |sys.calls| == |s.phases| && s.phases[id].Waiting?
    requires SizeAccepted(sys.calls[id], sys.maxBytes) && sys.temps(sys.calls[id].name, temp)
    requires temp !in s.files
    ensures IsPath(sys, path) && path[0] == s
    ensures path[|path| - 1] == State(s.files[temp := sys.calls[id].content], s.phases[id := Ready(temp)])
  {
    var content := sys.calls[id].content;
    path := OneStep(sys, s, id, s.files[temp := []], Copying(temp, 0));
    var created := path[|path| - 1];
    if content != [] {
      assert [] + content[0..|content|] == content && created.files[temp := content] == s.files[temp := content];
      var copies := OneStep(sys, created, id, s.files[temp := content], Copying(temp, |content|));
      path := PathsJoin(sys, path, copies);
    }
    var last := path[|path| - 1];
    assert last == State(s.files[temp := content], s.phases[id := Copying(temp, |content|)]);
    var checks := OneStep(sys, last, id, last.files, Ready(temp));
    path := PathsJoin(sys, path, checks);
  }

  lemma Replaces(sys: System, s: State, id: nat) returns (path: seq<State>)
    requires id < |sys.calls| == |s.phases| && s.phases[id].Ready? && s.phases[id].temp in s.files
    ensures IsPath(sys, path) && path[0] == s
    ensures var temp := s.phases[id].temp;
            path[|path| - 1] == State(s.files[sys.calls[id].name := s.files[temp]] - {temp}, s.phases[id := Done(true)])
  {
    var temp := s.phases[id].temp;
    path := OneStep(sys, s, id, s.files[sys.calls[id].name := s.files[temp]] - {temp}, Done(true));
  }

  lemma BothGetReady(sys: System, i: nat, j: nat, taken: string, own: string) returns (run: seq<State>)
    requires i < |sys.calls| && j < |sys.calls| && i != j && taken != own
    requires sys.temps(sys.calls[j].name, taken) && sys.temps(sys.calls[i].name, own)
    requires SizeAccepted(sys.calls[i], sys.maxBytes) && SizeAccepted(sys.calls[j], sys.maxBytes)
    ensures IsPath(sys, run) && Initial(sys, run[0]) && run[0].files == map[] && |run[|run| - 1].phases| == |sys.calls|
    ensures var last := run[|run| - 1];
            && last.phases[i] == Ready(own) && last.phases[j] == Ready(taken)
            && last.files == map[taken := sys.calls[j].content, own := sys.calls[i].content]
  {
    var start := State(map[], seq(|sys.calls|, k => Waiting));
    run := GetsReady(sys, start, j, taken);
    var other := GetsReady(sys, run[|run| - 1], i, own);
    run := PathsJoin(sys, run, other);
  }

  /** The first call publishes under the name of the second call's temporary file, then the second call does. */
  lemma ReplacedInTurn(sys: System, s: State, i: nat, j: nat, own: string) returns (path: seq<State>)
    requires i < |sys.calls| == |s.phases| && j < |sys.calls| && i != j
    requires s.phases[i] == Ready(own) && s.phases[j] == Ready(sys.calls[i].name)
    requires s.files == map[sys.calls[i].name := sys.calls[j].content, own := sys.calls[i].content]
    requires own != sys.calls[i].name && sys.calls[i].name != sys.calls[j].name
    ensures IsPath(sys, path) && path[0] == s
    ensures path[|path| - 1] == State(map[sys.calls[j].name := sys.calls[i].content],
                                      s.phases[i := Done(true)][j := Done(true)])
  {
    var taken := sys.calls[i].name;
    path := Replaces(sys, s, i);
    var between := path[|path| - 1];
    assert between.files == map[taken := sys.calls[i].content];
    var rest := Replaces(sys, between, j);
    path := PathsJoin(sys, path, rest);
  }

  lemma OwnTemp(temps: TempNames, taken: string, owner: string) returns (own: string)
    requires IsUsual(temps) && IsWritable(temps, taken) && temps(owner, taken)
    ensures temps(taken, own) && own != taken && taken != owner
  {
    own :| temps(taken, own);
    assert |own| > |taken| && |taken| > |owner|;
  }

  /**
   * A call asked for the name of another call's temporary file can replace that file just before it is published: both
   * calls succeed, but the second name then holds the content of the first.
   */
  lemma TakenTempIsPublished(sys: System, i: nat, j: nat) returns (run: seq<State>)
    requires i < |sys.calls| && j < |sys.calls| && IsUsual(sys.temps) && sys.temps(sys.calls[j].name, sys.calls[i].name)
    requires IsWritable(sys.temps, sys.calls[i].name)
    requires SizeAccepted(sys.calls[i], sys.maxBytes) && SizeAccepted(sys.calls[j], sys.maxBytes)
    ensures IsRun(sys, run) && run[0].files == map[]
    ensures var last := run[|run| - 1];
            && |last.phases| == |sys.calls| && last.phases[i] == Done(true) && last.phases[j] == Done(true)
            && last.files == map[sys.calls[j].name := sys.calls[i].content]
  {
    var own := OwnTemp(sys.temps, sys.calls[i].name, sys.calls[j].name);
    run := BothGetReady(sys, i, j, sys.calls[i].name, own);
    var rest := ReplacedInTurn(sys, run[|run| - 1], i, j, own);
    run := PathsJoin(sys, run, rest);
  }

  /** Among names that are not apart, one is taken by a call from another whose own name is nobody's temporary name. */
  lemma PlainOwner(temps: TempNames, names: seq<string>, i: nat, j: nat) returns (taken: nat, owner: nat)
    requires IsUsual(temps) && i < |names| && j < |names| && IsWritable(temps, names[i]) && temps(names[j], names[i])
    ensures taken < |names| && owner < |names| && IsWritable(temps, names[taken]) && temps(names[owner], names[taken])
    ensures !IsTempOf(temps, names, names[owner])
    decreases |names[j]|
  {
    if IsTempOf(temps, names, names[j]) {
      var k :| 0 <= k < |names| && temps(names[k], names[j]);
      taken, owner := PlainOwner(temps, names, j, k);
    } else {
      taken, owner := i, j;
    }
  }

  /** Each call writes its own name. */
  function SelfNaming(temps: TempNames, names: seq<string>, maxBytes: nat): (sys: System)
    ensures |sys.calls| == |names| && NamesOf(sys) == names && sys.temps == temps && sys.maxBytes == maxBytes
    ensures forall i :: 0 <= i < |names| ==> sys.calls[i] == Call(names[i], names[i], -1)
  {
    var sys := System(maxBytes, seq(|names|, i requires 0 <= i < |names| => Call(names[i], names[i], -1)), temps);
    assert forall i :: 0 <= i < |names| ==> NamesOf(sys)[i] == names[i];
    sys
  }

  /** Readers see whole files in every run of these calls. */
  ghost predicate AlwaysWhole(sys: System) {
    forall run: seq<State>, name: string {:trigger IsRun(sys, run), IsTempOf(sys.temps, NamesOf(sys), name)} ::
      IsRun(sys, run) && !IsTempOf(sys.temps, NamesOf(sys), name) ==> IsWhole(sys, run, name)
  }

  lemma NotApartNotWhole(temps: TempNames, names: seq<string>, i: nat, j: nat) returns (sys: System)
    requires IsUsual(temps) && i < |names| && j < |names| && IsWritable(temps, names[i]) && temps(names[j], names[i])
    ensures NamesOf(sys) == names && sys.temps == temps && !AlwaysWhole(sys)
  {
    var taken, owner := PlainOwner(temps, names, i, j);
    sys := SelfNaming(temps, names, |names[taken]| + |names[owner]|);
    var run := TakenTempIsPublished(sys, taken, owner);
    assert At(run[|run| - 1].files, names[owner]) == Some(names[taken]);
    assert !IsWhole(sys, run, names[owner]);
  }

  ghost predicate AlwaysWholeUnder(temps: TempNames, names: seq<string>) {
    forall sys: System {:trigger AlwaysWhole(sys)} :: NamesOf(sys) == names && sys.temps == temps ==> AlwaysWhole(sys)
  }

  /** No name that can be written is a temporary name of another. */
  ghost predicate NoneIsTaken(names: seq<string>) {
    forall i, j :: 0 <= i < |names| && 0 <= j < |names| && IsSafe(names[i]) ==> !IsTaken(names[i], names[j])
  }

  ghost predicate IsTaken(name: string, owner: string) {
    IsSafe(owner) && exists random: uint32 :: name == TempName(owner, random)
  }

  /** Whatever is written under these names: readers always see whole files exactly if no name is taken. */
  lemma ReadersSeeWholeFilesExactly(names: seq<string>)
    ensures AlwaysWholeUnder(CreateTemp(), names) <==> NoneIsTaken(names)
  {
    CreateTempIsUsual();
    assert forall i, j :: 0 <= i < |names| && 0 <= j < |names| ==>
        (IsTaken(names[i], names[j]) <==> CreateTemp()(names[j], names[i]));
    assert NamesApart(CreateTemp(), names) <==> NoneIsTaken(names);
    WholeExactly(CreateTemp(), names);
  }

  lemma WholeExactly(temps: TempNames, names: seq<string>)
    requires IsUsual(temps)
    ensures AlwaysWholeUnder(temps, names) <==> NamesApart(temps, names)
  {
    if NamesApart(temps, names) {
      forall sys: System | NamesOf(sys) == names && sys.temps == temps ensures AlwaysWhole(sys) {
        forall run: seq<State>, name: string | IsRun(sys, run) && !IsTempOf(sys.temps, NamesOf(sys), name)
          ensures IsWhole(sys, run, name)
        {
          ReadersSeeWholeFiles(sys, run, name);
        }
      }
    } else {
      var i: nat :| i < |names| && IsWritable(temps, names[i]) && IsTempOf(temps, names, names[i]);
      var j: nat :| j < |names| && temps(names[j], names[i]);
      var sys := NotApartNotWhole(temps, names, i, j);
    }
  }

  // ---------------------------------------------------------------- attachments

  /** WriteAttachment: the reader is cut one byte past the limit, so a longer source is noticed. */
  function AttachmentCall(name: string, source: Bytes, size: int, maxBytes: nat): Call {
    Call(name, if |source| <= maxBytes + 1 then source else source[..maxBytes + 1], size)
  }

  /** An attachment that passes has its announced size, is within the limit, and is the whole source. */
  lemma AttachmentsAreWhole(name: string, source: Bytes, size: int, maxBytes: nat)
    requires 0 <= size <= maxBytes && SizeAccepted(AttachmentCall(name, source, size, maxBytes), maxBytes)
    ensures AttachmentCall(name, source, size, maxBytes).content == source && |source| == size <= maxBytes
  {
  }
}
