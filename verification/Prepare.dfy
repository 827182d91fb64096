/** internal/output/writer.go, Prepare: guarded cleaning of the results directory. */
module Prepare {
  import opened Wrappers
  import opened ArtifactNames
  import opened Writer

  const MARKER := ".gauge-allure-report-owned"
  const MARKER_PREFIX := "gauge-allure-report\n"
  const MARKER_TEXT := "gauge-allure-report\nformat=1\n"

  /** A directory entry; a symbolic link is known by what it leads to (None: nothing readable). */
  datatype Entry = Regular(content: Bytes) | Directory | Symlink(target: Option<Bytes>)

  type Entries = map<string, Entry>

  /** The results path: absent, a real directory, or something else. */
  datatype Target = Absent | Folder(entries: Entries) | NotAFolder

  predicate KnownArtifact(name: string) {
    || name == MARKER || name == "environment.properties" || name == "executor.json" || name == "categories.json"
    || HasSuffix(name, "-result.json") || HasSuffix(name, "-container.json") || Contains(name, ATTACHMENT_INFIX)
    || ("." <= name && Contains(name, TEMP_INFIX))
  }

  /** Which names are recognised, spelled out; cleaning spares every other name. */
  lemma KnownArtifactExactly(name: string)
    ensures KnownArtifact(name) <==>
            || name in {".gauge-allure-report-owned", "environment.properties", "executor.json", "categories.json"}
            || (exists before: string :: name == before + "-result.json")
            || (exists before: string :: name == before + "-container.json")
            || (exists before: string, after: string :: name == before + "-attachment." + after)
            || (exists before: string, after: string :: name == before + ".tmp-" + after && "." <= name)
  {
    SuffixExactly(name, "-result.json");
    SuffixExactly(name, "-container.json");
    PartExactly(name, ATTACHMENT_INFIX);
    PartExactly(name, TEMP_INFIX);
  }

  predicate IsOwned(entries: Entries) {
    MARKER in entries &&
    match entries[MARKER]
    case Regular(content) => MARKER_PREFIX <= content
    case Symlink(Some(content)) => MARKER_PREFIX <= content
    case _ => false
  }

  predicate HasMaterialEntries(entries: Entries) {
    exists name <- entries :: name != MARKER
  }

  /** What cleaning removes: recognised regular files. */
  predicate IsOurs(entries: Entries, name: string) {
    name in entries && entries[name].Regular? && KnownArtifact(name)
  }

  function Cleaned(entries: Entries): Entries {
    map name | name in entries && !IsOurs(entries, name) :: entries[name]
  }

  /** os.WriteFile on the marker: through a symbolic link, otherwise a regular file. */
  function Marked(entries: Entries): Entries {
    entries[MARKER := if MARKER in entries && entries[MARKER].Symlink? then Symlink(Some(MARKER_TEXT))
            else Regular(MARKER_TEXT)]
  }

  /** Errors of the environment: names that cannot be removed, and a marker that cannot be written. */
  datatype Faults = Faults(stuck: set<string>, markerFails: bool)

  function EntriesOf(target: Target): Entries {
    if target.Folder? then target.entries else map[]
  }

  /** Cleaning is refused for material that is not provably this program's. */
  predicate IsRefused(target: Target, clean: bool, allowNonOwned: bool) {
    clean && !IsOwned(EntriesOf(target)) && !allowNonOwned && HasMaterialEntries(EntriesOf(target))
  }

  /** What reading a file of the directory yields, a symbolic link followed. */
  predicate ReadsAs(entries: Entries, name: string, content: Bytes) {
    name in entries && entries[name] in {Regular(content), Symlink(Some(content))}
  }

  /**
   * Cleaning is refused exactly for a directory with an entry of its own that no readable marker claims, unless the
   * caller insists; a path that does not exist is not refused.
   */
  lemma RefusedExactly(target: Target, clean: bool, allowNonOwned: bool)
    ensures IsRefused(target, clean, allowNonOwned) <==>
            && clean && !allowNonOwned && target.Folder?
            && (exists name <- target.entries :: name != ".gauge-allure-report-owned")
            && forall rest: Bytes ::
                 !ReadsAs(target.entries, ".gauge-allure-report-owned", "gauge-allure-report\n" + rest)
  {
    if target.Folder? && IsOwned(target.entries) {
      var content := match target.entries[MARKER] case Regular(c) => c case Symlink(Some(c)) => c case _ => "";
      assert ReadsAs(target.entries, MARKER, content);
      assert content == MARKER_PREFIX + content[|MARKER_PREFIX|..];
    }
  }

  class ResultsPath {
    var target: Target

    constructor (target: Target)
      ensures this.target == target
    {
      this.target := target;
    }

    /** The cleaning loop over a snapshot of the entries; it stops at a name that cannot be removed. */
    method Clean(faults: Faults) returns (ok: bool)
      requires target.Folder?
      modifies this
      ensures target.Folder?
      ensures ok <==> forall name <- faults.stuck :: !IsOurs(old(target.entries), name)
      ensures ok ==> target.entries == Cleaned(old(target.entries))
      ensures forall name :: name in old(target.entries) && !IsOurs(old(target.entries), name) ==>
        name in target.entries && target.entries[name] == old(target.entries)[name]
    {
      var entries := target.entries;
      var rest := entries.Keys;
      while rest != {}
        invariant rest <= entries.Keys
        invariant target ==
          Folder(map name | name in entries && (name in rest || !IsOurs(entries, name)) :: entries[name])
        invariant forall name <- entries.Keys - rest :: IsOurs(entries, name) ==> name !in faults.stuck
        decreases rest
      {
        var name :| name in rest;
        rest := rest - {name};
        if !IsOurs(entries, name) {
          continue;
        }
        if name in faults.stuck {
          return false;
        }
        target := Folder(target.entries - {name});
      }
      return true;
    }

    /** Prepare, for a path already checked against the dangerous ones. */
    method Prepare(dangerous: bool, clean: bool, allowNonOwned: bool, faults: Faults) returns (ok: bool)
      modifies this
      ensures ok <==>
        && !dangerous && !old(target).NotAFolder? && !IsRefused(old(target), clean, allowNonOwned)
        && (clean ==> forall name <- faults.stuck :: !IsOurs(EntriesOf(old(target)), name))
        && !faults.markerFails && !(MARKER in EntriesOf(old(target)) && EntriesOf(old(target))[MARKER].Directory?)
      ensures ok ==> target == Folder(Marked(if clean then Cleaned(EntriesOf(old(target))) else EntriesOf(old(target))))
      ensures dangerous || old(target).NotAFolder? ==> target == old(target)
      ensures !dangerous && IsRefused(old(target), clean, allowNonOwned) ==> target == old(target)
    {
      if dangerous || target.NotAFolder? {
        return false;
      }
      if target.Absent? {
        target := Folder(map[]);
      }
      if clean {
        if !IsOwned(target.entries) && !allowNonOwned && HasMaterialEntries(target.entries) {
          return false;
        }
        ok := Clean(faults);
        if !ok {
          return false;
        }
      }
      if faults.markerFails || (MARKER in target.entries && target.entries[MARKER].Directory?) {
        return false;
      }
      target := Folder(Marked(target.entries));
      return true;
    }
  }

  // ---------------------------------------------------------------- what follows

  /** A directory this program prepared passes its own ownership check. */
  lemma PreparedIsOwned(entries: Entries)
    ensures IsOwned(Marked(entries)) && !IsRefused(Folder(Marked(entries)), true, false)
  {
  }

  /** The directory after a run of the writer: regular files change, everything else stays. */
  function After(entries: Entries, files: map<string, Bytes>): Entries {
    (map name | name in files :: Regular(files[name])) +
      (map name | name in entries && !entries[name].Regular? :: entries[name])
  }

  function RegularFiles(entries: Entries): map<string, Bytes> {
    map name | name in entries && entries[name].Regular? :: entries[name].content
  }

  lemma UnknownIsNotTemp(sys: System, name: string)
    requires sys.temps == CreateTemp() && !KnownArtifact(name)
    requires forall i :: 0 <= i < |sys.calls| ==> IsArtifactName(sys.calls[i].name)
    ensures !IsTempOf(sys.temps, NamesOf(sys), name)
  {
    if IsTempOf(sys.temps, NamesOf(sys), name) {
      var i :| 0 <= i < |sys.calls| && sys.temps(sys.calls[i].name, name);
      var random: uint32 :| name == TempName(sys.calls[i].name, random);
      TempNameIsTemp(sys.calls[i].name, random);
    }
  }

  /** Cleaning after a run that may have been killed anywhere restores what a fresh cleaning would leave. */
  lemma NothingSurvivesARun(sys: System, run: seq<State>, entries: Entries)
    requires IsRun(sys, run) && run[0].files == RegularFiles(entries) && sys.temps == CreateTemp()
    requires forall i :: 0 <= i < |sys.calls| ==> IsArtifactName(sys.calls[i].name)
    requires forall i :: 0 <= i < |sys.calls| && sys.calls[i].name in entries ==> entries[sys.calls[i].name].Regular?
    ensures Cleaned(After(entries, run[|run| - 1].files)) == Cleaned(entries)
  {
    ArtifactsStayApart(NamesOf(sys));
    var files := run[|run| - 1].files;
    var after := After(entries, files);
    forall name | !KnownArtifact(name) ensures At(files, name) == At(run[0].files, name) {
      UnknownIsNotTemp(sys, name);
      ReadersSeeWholeFiles(sys, run, name);
    }
    forall name ensures name in Cleaned(after) <==> name in Cleaned(entries) {
      if !KnownArtifact(name) {
        assert At(files, name) == At(run[0].files, name);
      }
    }
    forall name | name in Cleaned(entries) ensures Cleaned(after)[name] == Cleaned(entries)[name] {
      if !KnownArtifact(name) {
        assert At(files, name) == At(run[0].files, name);
      }
    }
  }
}
