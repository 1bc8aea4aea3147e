/** The persistent registry of directory GUIDs in the command shell (src/MeshCLI.hpp). */
module Registry {
  import opened FiniteSets
  import opened Wrappers

  datatype Record = Record(path: string, active: bool)

  datatype State = State(records: map<string, Record>, byPath: map<string, string>)

  /** An entry of the stored file; `active` may be missing. */
  datatype Entry = Entry(guid: string, path: string, active: Option<bool>)

  // ---------------------------------------------------------------- the operations

  /** Loading: what has been read so far and the paths it used. */
  datatype Loading = Loading(state: State, paths: set<string>)

  function LoadEntry(l: Loading, e: Entry, normalize: string -> string): Loading {
    if e.guid == "" then l
    else
      var path := if e.path == "" then "" else normalize(e.path);
      var active := if e.active.Some? then e.active.value else e.path != "";
      var record := if e.path != "" && path == "" then Record("", false) else Record(path, active);
      if path != "" && path in l.paths then l
      else
        var paths := if path != "" then l.paths + {path} else l.paths;
        if e.guid in l.state.records then Loading(l.state, paths)
        else
          Loading(State(l.state.records[e.guid := record],
                        if record.active && path != "" then l.state.byPath[path := e.guid] else l.state.byPath),
                  paths)
  }

  /** An entry that cannot be read ends the loop. */
  function LoadAll(entries: seq<Option<Entry>>, normalize: string -> string): Loading {
    if entries == [] then Loading(State(map[], map[]), {})
    else if exists i :: 0 <= i < |entries| - 1 && entries[i].None? then LoadAll(entries[..|entries| - 1], normalize)
    else if entries[|entries| - 1].None? then LoadAll(entries[..|entries| - 1], normalize)
    else LoadEntry(LoadAll(entries[..|entries| - 1], normalize), entries[|entries| - 1].value, normalize)
  }

  function RecordOf(s: State, guid: string): Record {
    if guid in s.records then s.records[guid] else Record("", false)
  }

  /** Map `path` to `guid`; a record displaced from the path is dropped. */
  function Remembered(s: State, path: string, guid: string): State {
    if path == "" || guid == "" then s
    else if path in s.byPath && s.byPath[path] == guid then s.(records := s.records[guid := Record(path, true)])
    else
      var others := if path in s.byPath then s.records - {s.byPath[path]} else s.records;
      var was := if guid in others then others[guid].path else "";
      var freed := s.byPath - {path} - if was != "" && was != path then {was} else {};
      State(others[guid := Record(path, true)], freed[path := guid])
  }

  /** May `guid` be given another directory?  It must be known or look like a GUID, and must
      not be attached to a directory that still exists. */
  predicate Assignable(s: State, guid: string, looksLikeGuid: bool, dirExists: string -> bool) {
    if guid !in s.records then looksLikeGuid
    else !(s.records[guid].active && s.records[guid].path != "" && dirExists(s.records[guid].path))
  }

  /** Map `path` to `guid`; a record displaced from the path becomes inactive. */
  function Assigned(s: State, path: string, guid: string): State {
    var displaced := match Displaced(s, path, guid)
                     case None => s.records
                     case Some(g) => s.records[g := s.records[g].(active := false)];
    var was := RecordOf(s, guid).path;
    var freed := s.byPath - {path} - if was != "" then {was} else {};
    State(displaced[guid := Record(path, true)], freed[path := guid])
  }

  /** The GUID whose record `Assigned` makes inactive. */
  function Displaced(s: State, path: string, guid: string): Option<string> {
    if path in s.byPath && s.byPath[path] != guid && s.byPath[path] in s.records then Some(s.byPath[path]) else None
  }

  function Forgotten(s: State, guid: string): State {
    if guid !in s.records then s
    else State(s.records - {guid}, if s.records[guid].path != "" then s.byPath - {s.records[guid].path} else s.byPath)
  }

  /** Is the record's directory there: among the paths seen, watched, or on disk? */
  predicate Seen(guid: string, record: Record, seenPaths: set<string>, watched: set<string>,
                 dirExists: string -> bool)
  {
    || (record.path != "" && record.path in seenPaths)
    || guid in watched
    || (record.path != "" && dirExists(record.path))
  }

  function ReconcileOne(s: State, guid: string, seen: bool): State
    requires guid in s.records
  {
    var record := s.records[guid];
    State(s.records[guid := record.(active := seen)],
          if record.path == "" then s.byPath
          else if seen then s.byPath[record.path := guid] else s.byPath - {record.path})
  }

  function AllSeen(s: State, seenPaths: set<string>, watched: set<string>, dirExists: string -> bool): set<string> {
    set g | g in s.records && Seen(g, s.records[g], seenPaths, watched, dirExists)
  }

  /** `order` is the order in which the records are walked. */
  function Reconciled(s: State, order: seq<string>, seen: set<string>): (t: State)
    requires forall g :: g in order ==> g in s.records
    ensures t.records.Keys == s.records.Keys && forall g :: g in s.records ==> t.records[g].path == s.records[g].path
  {
    if order == [] then s
    else
      var g := order[|order| - 1];
      ReconcileOne(Reconciled(s, order[..|order| - 1], seen), g, g in seen)
  }

  // ---------------------------------------------------------------- agreement

  /** Every path leads to an active record of that path. */
  ghost predicate Agrees(s: State) {
    forall p :: p in s.byPath ==> p != "" && s.byPath[p] in s.records && s.records[s.byPath[p]] == Record(p, true)
  }

  /** And every active record with a path is led to. */
  ghost predicate Complete(s: State) {
    forall g :: g in s.records && s.records[g].active && s.records[g].path != "" ==>
      s.records[g].path in s.byPath && s.byPath[s.records[g].path] == g
  }

  datatype Event =
    | Load(entries: seq<Option<Entry>>)
    | Remember(raw: string, guid: string)
    | Assign(guid: string, raw: string, looksLikeGuid: bool)
    | Forget(guid: string)
    | Reconcile(order: seq<string>, seenPaths: set<string>, watched: set<string>)

  /** What the disk looks like and how paths are normalised, at the time of an event. */
  datatype Surroundings = Surroundings(normalize: string -> string, isInternal: string -> bool,
                                       dirExists: string -> bool)

  predicate AssignAllowed(s: State, guid: string, raw: string, looksLikeGuid: bool, w: Surroundings) {
    var path := w.normalize(raw);
    path != "" && !w.isInternal(path) && w.dirExists(path) && Assignable(s, guid, looksLikeGuid, w.dirExists)
  }

  ghost predicate Happens(s: State, t: State, e: Event, w: Surroundings) {
    match e
    case Load(entries) => t == LoadAll(entries, w.normalize).state
    case Remember(raw, guid) => t == if raw == "" then s else Remembered(s, w.normalize(raw), guid)
    case Assign(guid, raw, looksLikeGuid) =>
      t == if AssignAllowed(s, guid, raw, looksLikeGuid, w) then Assigned(s, w.normalize(raw), guid) else s
    case Forget(guid) => t == Forgotten(s, guid)
    case Reconcile(order, seenPaths, watched) =>
      Enumerates(order, s.records.Keys) &&
      t == Reconciled(s, order, AllSeen(s, seenPaths, watched, w.dirExists))
  }

  /** The paths used so far cover the records. */
  ghost predicate LoadInv(l: Loading) {
    && Agrees(l.state) && Complete(l.state)
    && forall g :: g in l.state.records && l.state.records[g].path != "" ==> l.state.records[g].path in l.paths
  }

  /** A freshly loaded registry agrees both ways. */
  lemma {:induction false} LoadAgrees(entries: seq<Option<Entry>>, normalize: string -> string)
    ensures LoadInv(LoadAll(entries, normalize))
  {
    if entries != [] {
      LoadAgrees(entries[..|entries| - 1], normalize);
    }
  }

  // ---------------------------------------------------------------- what is loaded

  /** The path an entry stands for, normalised. */
  function PathOf(e: Entry, normalize: string -> string): string {
    if e.path == "" then "" else normalize(e.path)
  }

  /** No named entry before the `i`-th has its path, if it has one. */
  ghost predicate FirstOfPath(entries: seq<Option<Entry>>, i: nat, normalize: string -> string)
    requires i < |entries| && Readable(entries, i + 1)
  {
    PathOf(entries[i].value, normalize) == "" ||
    forall j :: 0 <= j < i && entries[j].value.guid != "" ==>
      PathOf(entries[j].value, normalize) != PathOf(entries[i].value, normalize)
  }

  ghost predicate Readable(entries: seq<Option<Entry>>, n: nat)
    requires n <= |entries|
  {
    forall i :: 0 <= i < n ==> entries[i].Some?
  }

  /** The entry that is kept for a GUID: the first that has it among those that are the first
      of their path. */
  ghost predicate KeptFor(entries: seq<Option<Entry>>, i: nat, guid: string, normalize: string -> string)
    requires i < |entries| && Readable(entries, |entries|)
  {
    && guid != "" && entries[i].value.guid == guid && FirstOfPath(entries, i, normalize)
    && forall j: nat :: j < i && entries[j].value.guid == guid ==> !FirstOfPath(entries, j, normalize)
  }

  predicate Uses(e: Entry, path: string, normalize: string -> string) {
    e.guid != "" && path != "" && PathOf(e, normalize) == path
  }

  predicate IsRecordOf(s: State, e: Entry, normalize: string -> string) {
    e.guid in s.records && s.records[e.guid].path == PathOf(e, normalize) &&
    (s.records[e.guid].active <==>
       if e.path != "" && normalize(e.path) == "" then false
       else if e.active.Some? then e.active.value else e.path != "")
  }

  /** The records and used paths are those that the first `n` entries leave. */
  ghost predicate Holds(entries: seq<Option<Entry>>, n: nat, l: Loading, normalize: string -> string)
    requires n <= |entries| && Readable(entries, |entries|)
  {
    && (forall g :: g in l.state.records <==> exists i: nat :: i < n && KeptFor(entries, i, g, normalize))
    && (forall i: nat :: i < n && KeptFor(entries, i, entries[i].value.guid, normalize) ==>
          IsRecordOf(l.state, entries[i].value, normalize))
    && (forall p :: p in l.paths <==> exists i: nat :: i < n && Uses(entries[i].value, p, normalize))
  }

  /** If some entry of a GUID is looked at, the first of them is kept. */
  lemma {:induction false} FirstIsKept(entries: seq<Option<Entry>>, k: nat, normalize: string -> string)
    requires k < |entries| && Readable(entries, |entries|)
    requires entries[k].value.guid != "" && FirstOfPath(entries, k, normalize)
    ensures exists i: nat :: i <= k && KeptFor(entries, i, entries[k].value.guid, normalize)
  {
    hide FirstOfPath;
    if !KeptFor(entries, k, entries[k].value.guid, normalize) {
      var j: nat :| j < k && entries[j].value.guid == entries[k].value.guid && FirstOfPath(entries, j, normalize);
      FirstIsKept(entries, j, normalize);
    }
  }

  lemma FirstOfPathExactly(entries: seq<Option<Entry>>, n: nat, l: Loading, normalize: string -> string)
    requires n < |entries| && Readable(entries, |entries|) && Holds(entries, n, l, normalize)
    ensures var path := PathOf(entries[n].value, normalize);
            FirstOfPath(entries, n, normalize) <==> path == "" || path !in l.paths
  {
    hide KeptFor, IsRecordOf;
    var path := PathOf(entries[n].value, normalize);
    if path in l.paths {
      var i: nat :| i < n && Uses(entries[i].value, path, normalize);
    } else if path != "" {
      assert forall i: nat :: i < n ==> !Uses(entries[i].value, path, normalize);
    }
  }

  lemma KeptExactly(entries: seq<Option<Entry>>, n: nat, l: Loading, normalize: string -> string)
    requires n < |entries| && Readable(entries, |entries|) && Holds(entries, n, l, normalize)
    ensures var e := entries[n].value;
            KeptFor(entries, n, e.guid, normalize) <==>
              e.guid != "" && FirstOfPath(entries, n, normalize) && e.guid !in l.state.records
  {
    hide FirstOfPath, IsRecordOf, Uses;
    var guid := entries[n].value.guid;
    if guid != "" && FirstOfPath(entries, n, normalize) {
      if j: nat :| j < n && entries[j].value.guid == guid && FirstOfPath(entries, j, normalize) {
        FirstIsKept(entries, j, normalize);
      }
    }
  }

  /** What one entry adds. */
  lemma EntryLoads(l: Loading, e: Entry, normalize: string -> string)
    ensures var t := LoadEntry(l, e, normalize);
            var looked := e.guid != "" && (PathOf(e, normalize) == "" || PathOf(e, normalize) !in l.paths);
            && (forall p :: p in t.paths <==> p in l.paths || Uses(e, p, normalize))
            && (if looked && e.guid !in l.state.records
                then t.state.records == l.state.records[e.guid := t.state.records[e.guid]] &&
                  IsRecordOf(t.state, e, normalize)
                else t.state.records == l.state.records)
  {
  }

  lemma StillRecord(s: State, t: State, e: Entry, normalize: string -> string)
    requires IsRecordOf(s, e, normalize) && e.guid in t.records && t.records[e.guid] == s.records[e.guid]
    ensures IsRecordOf(t, e, normalize)
  {
  }

  lemma LoadStep(entries: seq<Option<Entry>>, n: nat, l: Loading, normalize: string -> string)
    requires n < |entries| && Readable(entries, |entries|) && Holds(entries, n, l, normalize)
    ensures var m := n + 1; Holds(entries, m, LoadEntry(l, entries[n].value, normalize), normalize)
  {
    hide LoadEntry, IsRecordOf, KeptFor, FirstOfPath, Uses;
    var e, t := entries[n].value, LoadEntry(l, entries[n].value, normalize);
    FirstOfPathExactly(entries, n, l, normalize);
    KeptExactly(entries, n, l, normalize);
    EntryLoads(l, e, normalize);
    OnlyItsGuid(entries, n, normalize);
    forall i: nat | i < n + 1 && KeptFor(entries, i, entries[i].value.guid, normalize)
      ensures IsRecordOf(t.state, entries[i].value, normalize)
    {
      if i < n { StillRecord(l.state, t.state, entries[i].value, normalize); }
    }
  }

  lemma OnlyItsGuid(entries: seq<Option<Entry>>, n: nat, normalize: string -> string)
    requires n < |entries| && Readable(entries, |entries|)
    ensures forall g :: KeptFor(entries, n, g, normalize) ==> g == entries[n].value.guid
  {
  }

  lemma {:induction false} LoadHolds(entries: seq<Option<Entry>>, n: nat, normalize: string -> string)
    requires n <= |entries| && Readable(entries, |entries|)
    ensures Holds(entries, n, LoadAll(entries[..n], normalize), normalize)
  {
    hide Holds, LoadEntry, LoadAll, Readable;
    if n == 0 {
      NothingHeld(entries, normalize);
    } else {
      LoadHolds(entries, n - 1, normalize);
      LoadAllStep(entries, n - 1, normalize);
      LoadStep(entries, n - 1, LoadAll(entries[..n - 1], normalize), normalize);
    }
  }

  lemma NothingHeld(entries: seq<Option<Entry>>, normalize: string -> string)
    requires Readable(entries, |entries|)
    ensures Holds(entries, 0, LoadAll(entries[..0], normalize), normalize)
  {
  }

  lemma LoadAllStep(entries: seq<Option<Entry>>, n: nat, normalize: string -> string)
    requires n < |entries| && Readable(entries, |entries|)
    ensures entries[n].Some?
    ensures LoadAll(entries[..n + 1], normalize) ==
      LoadEntry(LoadAll(entries[..n], normalize), entries[n].value, normalize)
  {
    hide LoadEntry;
    assert entries[..n + 1][..n] == entries[..n];
  }

  /** WHICH ENTRIES A LOAD KEEPS.  Of entries with one path only the first is looked at, and of
      those with one GUID that are looked at the first is kept; so an entry whose path and GUID
      are new is.  It becomes a record with its normalised path, active as it says or, if it
      does not say, if it has a path; one whose path comes to nothing is inactive. */
  lemma LoadKeepsExactly(entries: seq<Option<Entry>>, normalize: string -> string)
    requires Readable(entries, |entries|)
    ensures var records := LoadAll(entries, normalize).state.records;
            && (forall g :: g in records <==> exists i: nat :: i < |entries| && KeptFor(entries, i, g, normalize))
            && (forall i: nat :: i < |entries| && KeptFor(entries, i, entries[i].value.guid, normalize) ==>
                  IsRecordOf(LoadAll(entries, normalize).state, entries[i].value, normalize))
  {
    LoadHolds(entries, |entries|, normalize);
    assert entries[..|entries|] == entries;
  }

  lemma {:induction false} ReconcileAgrees(s: State, order: seq<string>, seen: set<string>)
    requires Agrees(s) && forall g :: g in order ==> g in s.records
    ensures Agrees(Reconciled(s, order, seen))
  {
    if order != [] {
      ReconcileAgrees(s, order[..|order| - 1], seen);
    }
  }

  lemma EventKeepsAgreement(s: State, t: State, e: Event, w: Surroundings)
    requires Agrees(s) && Happens(s, t, e, w)
    ensures Agrees(t)
  {
    hide LoadAll, Reconciled, Assignable, Seen;
    match e {
      case Load(entries) => LoadAgrees(entries, w.normalize);
      case Reconcile(order, seenPaths, watched) =>
        ReconcileAgrees(s, order, AllSeen(s, seenPaths, watched, w.dirExists));
      case _ =>
    }
  }

  /** After any sequence of operations, whatever the disk did in between: a path leads to an
      active record with just that path.  So no GUID is reached by two paths. */
  lemma {:induction false} AlwaysAgrees(states: seq<State>, events: seq<Event>, worlds: seq<Surroundings>, k: nat)
    requires |states| == |events| + 1 && |worlds| == |events| && k <= |events|
    requires states[0] == State(map[], map[])
    requires forall i :: 0 <= i < |events| ==> Happens(states[i], states[i + 1], events[i], worlds[i])
    ensures Agrees(states[k])
    ensures forall p, q :: p in states[k].byPath && q in states[k].byPath && p != q ==>
              states[k].byPath[p] != states[k].byPath[q]
  {
    if k > 0 {
      AlwaysAgrees(states, events, worlds, k - 1);
      EventKeepsAgreement(states[k - 1], states[k], events[k - 1], worlds[k - 1]);
    }
  }

  // ---------------------------------------------------------------- what each change comes to

  /** Remembering maps path and GUID to each other, drops the record that had the path, and
      frees the path the GUID had; every other record and path stays. */
  lemma RememberMeaning(s: State, path: string, guid: string, g: string, p: string)
    requires Agrees(s) && path != "" && guid != ""
    ensures var t := Remembered(s, path, guid);
            && guid in t.records && t.records[guid] == Record(path, true)
            && path in t.byPath && t.byPath[path] == guid
            && (g != guid ==> (g in t.records <==> g in s.records && !(path in s.byPath && s.byPath[path] == g)))
            && (g != guid && g in t.records ==> t.records[g] == s.records[g])
            && (p != path ==> (p in t.byPath <==> p in s.byPath && !(guid in s.records && s.records[guid].path == p)))
            && (p != path && p in t.byPath ==> t.byPath[p] == s.byPath[p])
  {
  }

  /** Assigning maps path and GUID to each other, makes the record that had the path inactive,
      and frees the path the GUID had; every other record and path stays. */
  lemma AssignMeaning(s: State, path: string, guid: string, g: string, p: string)
    requires Agrees(s) && path != ""
    ensures var t := Assigned(s, path, guid);
            && guid in t.records && t.records[guid] == Record(path, true)
            && path in t.byPath && t.byPath[path] == guid
            && (g != guid ==> (g in t.records <==> g in s.records))
            && (g != guid && g in s.records ==>
                  t.records[g] == if path in s.byPath && s.byPath[path] == g then Record(path, false) else s.records[g])
            && (p != path ==> (p in t.byPath <==> p in s.byPath && !(guid in s.records && s.records[guid].path == p)))
            && (p != path && p in t.byPath ==> t.byPath[p] == s.byPath[p])
            && (Displaced(s, path, guid) == Some(g) <==> g != guid && path in s.byPath && s.byPath[path] == g)
  {
  }

  /** Forgetting takes out the record and its path; every other record and path stays. */
  lemma ForgetMeaning(s: State, guid: string, g: string, p: string)
    requires Agrees(s)
    ensures var t := Forgotten(s, guid);
            && (g in t.records <==> g in s.records && g != guid) && (g in t.records ==> t.records[g] == s.records[g])
            && (p in t.byPath <==> p in s.byPath && !(guid in s.records && s.records[guid].path == p))
            && (p in t.byPath ==> t.byPath[p] == s.byPath[p])
  {
  }

  // ---------------------------------------------------------------- when the converse is lost

  /** The path that a record used to have leads to somebody else by now. */
  predicate Overtaken(s: State, guid: string) {
    guid in s.records && s.records[guid].path in s.byPath && s.byPath[s.records[guid].path] != guid
  }

  /** Forgetting a GUID detaches somebody else's active record exactly when another record
      has taken over its path. */
  lemma ForgetKeepsCompleteExactly(s: State, guid: string)
    requires Agrees(s) && Complete(s)
    ensures Complete(Forgotten(s, guid)) <==> !Overtaken(s, guid)
  {
    if Overtaken(s, guid) {
      var g := s.byPath[s.records[guid].path];
      assert g in Forgotten(s, guid).records && s.records[g].path == s.records[guid].path;
    }
  }

  /** Giving a GUID another path does the same to the owner of its old path. */
  lemma AssignKeepsCompleteExactly(s: State, path: string, guid: string)
    requires Agrees(s) && Complete(s) && path != ""
    ensures Complete(Assigned(s, path, guid)) <==> !(Overtaken(s, guid) && s.records[guid].path != path)
  {
    if Overtaken(s, guid) && s.records[guid].path != path {
      var g := s.byPath[s.records[guid].path];
      assert g in Assigned(s, path, guid).records && s.records[g].path == s.records[guid].path;
    }
  }

  lemma RememberKeepsCompleteExactly(s: State, path: string, guid: string)
    requires Agrees(s) && Complete(s) && path != "" && guid != ""
    ensures Complete(Remembered(s, path, guid)) <==> !(Overtaken(s, guid) && s.records[guid].path != path)
  {
    if Overtaken(s, guid) && s.records[guid].path != path {
      var g := s.byPath[s.records[guid].path];
      assert g in Remembered(s, path, guid).records && s.records[g].path == s.records[guid].path;
    }
  }

  // ---------------------------------------------------------------- what reconciling gives

  /** The last record in `order` with path `p`. */
  function LastWith(s: State, order: seq<string>, p: string): Option<string>
    requires forall g :: g in order ==> g in s.records
  {
    if order == [] then None
    else if s.records[order[|order| - 1]].path == p then Some(order[|order| - 1])
    else LastWith(s, order[..|order| - 1], p)
  }

  lemma {:induction false} LastWithIsLast(s: State, order: seq<string>, p: string)
    requires forall g :: g in order ==> g in s.records
    ensures var last := LastWith(s, order, p);
            && (last.Some? ==> last.value in order && s.records[last.value].path == p)
            && (last.None? ==> forall g :: g in order ==> s.records[g].path != p)
  {
    if order != [] {
      LastWithIsLast(s, order[..|order| - 1], p);
    }
  }

  /** A record is active exactly if its directory was seen, and a path leads to the record
      walked last among those that share it, if that one was seen. */
  lemma {:induction false} ReconcileMeaning(s: State, order: seq<string>, seen: set<string>)
    requires forall g :: g in order ==> g in s.records
    ensures var t := Reconciled(s, order, seen);
            && (forall g :: g in s.records ==>
                  t.records[g] == if g in order then s.records[g].(active := g in seen) else s.records[g])
            && (forall p :: p != "" ==>
                  match LastWith(s, order, p) {
                    case None => (p in t.byPath <==> p in s.byPath) && (p in s.byPath ==> t.byPath[p] == s.byPath[p])
                    case Some(g) => (p in t.byPath <==> g in seen) && (g in seen ==> t.byPath[p] == g)
                  })
  {
    if order != [] {
      ReconcileMeaning(s, order[..|order| - 1], seen);
    }
  }

  /** Reconciling makes the two maps agree both ways, for every order in which the records
      may be walked, exactly when no record whose directory was seen shares its path. */
  lemma ReconcileCompletesExactly(s: State, seen: set<string>)
    requires seen <= s.records.Keys
    ensures (forall order :: Enumerates(order, s.records.Keys) ==> Complete(Reconciled(s, order, seen))) <==>
      Unshared(s, seen)
  {
    if Unshared(s, seen) {
      forall order | Enumerates(order, s.records.Keys)
        ensures Complete(Reconciled(s, order, seen))
      {
        UnsharedCompletes(s, order, seen);
      }
    } else {
      var g, h :| g in seen && h in s.records && g != h && s.records[g].path == s.records[h].path != "";
      var order := SharedFails(s, seen, g, h);
    }
  }

  lemma SharedFails(s: State, seen: set<string>, g: string, h: string) returns (order: seq<string>)
    requires seen <= s.records.Keys && g in seen && h in s.records && g != h
    requires s.records[g].path == s.records[h].path != ""
    ensures Enumerates(order, s.records.Keys) && !Complete(Reconciled(s, order, seen))
  {
    var rest := AnyOrder(s.records.Keys - {h});
    order := rest + [h];
    assert order[..|order| - 1] == rest;
    assert Enumerates(order, s.records.Keys);
    ReconcileMeaning(s, order, seen);
    assert LastWith(s, order, s.records[h].path) == Some(h);
    var t := Reconciled(s, order, seen);
    assert t.records[g].active && t.records[g].path == s.records[h].path;
    hide Reconciled, LastWith, Enumerates;
  }

  ghost predicate Unshared(s: State, seen: set<string>)
    requires seen <= s.records.Keys
  {
    forall g, h :: g in seen && h in s.records && g != h && s.records[g].path != "" ==>
      s.records[g].path != s.records[h].path
  }

  lemma UnsharedCompletes(s: State, order: seq<string>, seen: set<string>)
    requires seen <= s.records.Keys && Enumerates(order, s.records.Keys) && Unshared(s, seen)
    ensures Complete(Reconciled(s, order, seen))
  {
    ReconcileMeaning(s, order, seen);
    var t := Reconciled(s, order, seen);
    forall g | g in t.records && t.records[g].active && t.records[g].path != ""
      ensures t.records[g].path in t.byPath && t.byPath[t.records[g].path] == g
    {
      LastWithIsLast(s, order, s.records[g].path);
    }
  }

  // ---------------------------------------------------------------- the class

  datatype AssignResult = Rejected | Mapped(displaced: Option<string>)

  class DirGuidRegistry {
    var records: map<string, Record>
    var byPath: map<string, string>

    function Abs(): State
      reads this
    {
      State(records, byPath)
    }

    constructor ()
      ensures Abs() == State(map[], map[])
    {
      records, byPath := map[], map[];
    }

    method Load(entries: seq<Option<Entry>>, normalize: string -> string)
      modifies this
      ensures Abs() == LoadAll(entries, normalize).state && LoadInv(LoadAll(entries, normalize))
    {
      records, byPath := map[], map[];
      var loadedPaths: set<string> := {};
      for i := 0 to |entries|
        invariant forall k :: 0 <= k < i ==> entries[k].Some?
        invariant Loading(Abs(), loadedPaths) == LoadAll(entries[..i], normalize)
      {
        assert entries[..i + 1][..i] == entries[..i];
        if entries[i].None? {
          LoadStops(entries, i, normalize);
          LoadAgrees(entries, normalize);
          return;
        }
        var e := entries[i].value;
        if e.guid == "" { continue; }
        var record := Record(e.path, if e.active.Some? then e.active.value else e.path != "");
        if record.path != "" {
          var normalized := normalize(record.path);
          if normalized == "" {
            record := Record("", false);
          } else {
            record := record.(path := normalized);
            if normalized in loadedPaths { continue; }
            loadedPaths := loadedPaths + {normalized};
          }
        }
        if e.guid in records { continue; }
        records := records[e.guid := record];
        if record.active && record.path != "" { byPath := byPath[record.path := e.guid]; }
      }
      assert entries[..|entries|] == entries;
      LoadAgrees(entries, normalize);
    }

    method Remember(raw: string, guid: string, normalize: string -> string)
      modifies this
      ensures Abs() == if raw == "" then old(Abs()) else Remembered(old(Abs()), normalize(raw), guid)
    {
      if raw == "" || guid == "" { return; }
      var path := normalize(raw);
      if path == "" { return; }
      if path in byPath && byPath[path] == guid {
        records := records[guid := Record(path, true)];
        return;
      }
      Remap(path, guid);
    }

    method Remap(path: string, guid: string)
      requires path != "" && guid != "" && !(path in byPath && byPath[path] == guid)
      modifies this
      ensures Abs() == Remembered(old(Abs()), path, guid)
    {
      Displace(path);
      var was := if guid in records then records[guid].path else "";
      if was != "" && was != path { byPath := byPath - {was}; }
      records := records[guid := Record(path, true)];
      byPath := byPath[path := guid];
    }

    method Displace(path: string)
      modifies this
      ensures records == if path in old(byPath) then old(records) - {old(byPath)[path]} else old(records)
      ensures byPath == old(byPath) - {path}
    {
      if path in byPath {
        records := records - {byPath[path]};
        byPath := byPath - {path};
      }
    }

    /** `guid assign`: returns the GUID that lost the path, if any. */
    method Assign(guid: string, raw: string, looksLikeGuid: bool, w: Surroundings) returns (r: AssignResult)
      modifies this
      ensures Happens(old(Abs()), Abs(), Event.Assign(guid, raw, looksLikeGuid), w)
      // allowed for an existing directory that is not reserved, if the GUID is new and looks
      // like one or is not attached to another existing directory
      ensures r.Mapped? <==>
        var path := w.normalize(raw);
        && path != "" && !w.isInternal(path) && w.dirExists(path)
        && if guid in old(records)
           then !(old(records)[guid].active && old(records)[guid].path != "" && w.dirExists(old(records)[guid].path))
           else looksLikeGuid
      ensures r.Mapped? ==> r.displaced == Displaced(old(Abs()), w.normalize(raw), guid)
    {
      var path := w.normalize(raw);
      if path == "" || w.isInternal(path) || !w.dirExists(path) { return Rejected; }
      if guid !in records {
        if !looksLikeGuid { return Rejected; }
        AssignedFromNew(Abs(), path, guid);
        records := records[guid := Record("", false)];
      } else if records[guid].active && records[guid].path != "" && w.dirExists(records[guid].path) {
        return Rejected;
      }
      var displaced := Map(path, guid);
      r := Mapped(displaced);
    }

    method Map(path: string, guid: string) returns (displaced: Option<string>)
      requires guid in records
      modifies this
      ensures Abs() == Assigned(old(Abs()), path, guid) && displaced == Displaced(old(Abs()), path, guid)
    {
      displaced := None;
      if path in byPath && byPath[path] != guid {
        if byPath[path] in records {
          displaced := Some(byPath[path]);
          records := records[byPath[path] := records[byPath[path]].(active := false)];
        }
        byPath := byPath - {path};
      }
      if records[guid].path != "" { byPath := byPath - {records[guid].path}; }
      records := records[guid := Record(path, true)];
      byPath := byPath[path := guid];
    }

    method Forget(guid: string) returns (removed: bool)
      modifies this
      ensures Abs() == Forgotten(old(Abs()), guid)
      ensures removed <==> guid in old(records)
    {
      if guid !in records { return false; }
      if records[guid].path != "" { byPath := byPath - {records[guid].path}; }
      records := records - {guid};
      removed := true;
    }

    method ReconcileTurn(guid: string, seenPaths: set<string>, watched: set<string>, dirExists: string -> bool)
      returns (seen: bool)
      requires guid in records
      modifies this
      ensures Abs() == ReconcileOne(old(Abs()), guid, seen)
      ensures seen <==> Seen(guid, old(records)[guid], seenPaths, watched, dirExists)
    {
      var record := records[guid];
      seen := record.path != "" && record.path in seenPaths;
      if !seen && guid in watched { seen := true; }
      if !seen && record.path != "" && dirExists(record.path) { seen := true; }
      if seen {
        if !record.active { records := records[guid := record.(active := true)]; }
        if record.path != "" { byPath := byPath[record.path := guid]; }
      } else {
        if record.active { records := records[guid := record.(active := false)]; }
        if record.path != "" { byPath := byPath - {record.path}; }
      }
    }

    /** Returns the records whose directories were not seen, in the order of the walk. */
    method Reconcile(order: seq<string>, seenPaths: set<string>, watched: set<string>, dirExists: string -> bool)
      returns (orphaned: seq<string>)
      requires Enumerates(order, records.Keys)
      modifies this
      ensures Abs() == Reconciled(old(Abs()), order, AllSeen(old(Abs()), seenPaths, watched, dirExists))
      ensures forall g :: g in orphaned <==> g in records && !records[g].active
      // active are those that are watched, and those whose path was seen or is on disk
      ensures records.Keys == old(records).Keys
      ensures forall g :: g in records ==>
        var path := old(records)[g].path;
        (records[g].active <==> g in watched || (path != "" && (path in seenPaths || dirExists(path))))
    {
      ghost var s := Abs();
      ghost var seenSet := AllSeen(s, seenPaths, watched, dirExists);
      orphaned := [];
      for i := 0 to |order|
        invariant Abs() == Reconciled(s, order[..i], seenSet)
        invariant forall g :: g in orphaned <==> g in order[..i] && g !in seenSet
      {
        assert order[..i + 1][..i] == order[..i];
        var seen := ReconcileTurn(order[i], seenPaths, watched, dirExists);
        assert seen <==> order[i] in seenSet;
        if !seen { orphaned := orphaned + [order[i]]; }
      }
      assert order[..|order|] == order;
      ReconcileMeaning(s, order, seenSet);
    }
  }

  lemma AssignedFromNew(s: State, path: string, guid: string)
    requires guid !in s.records
    ensures var t := s.(records := s.records[guid := Record("", false)]);
            Assigned(t, path, guid) == Assigned(s, path, guid) && Displaced(t, path, guid) == Displaced(s, path, guid)
  {
  }

  lemma {:induction false} LoadStopsAt(entries: seq<Option<Entry>>, i: nat, k: nat, normalize: string -> string)
    requires i < k <= |entries| && entries[i].None? && forall j :: 0 <= j < i ==> entries[j].Some?
    ensures LoadAll(entries[..k], normalize) == LoadAll(entries[..i], normalize)
  {
    assert entries[..k][..k - 1] == entries[..k - 1];
    if k > i + 1 {
      assert entries[..k][i].None?;
      LoadStopsAt(entries, i, k - 1, normalize);
    }
  }

  lemma LoadStops(entries: seq<Option<Entry>>, i: nat, normalize: string -> string)
    requires i < |entries| && entries[i].None? && forall j :: 0 <= j < i ==> entries[j].Some?
    ensures LoadAll(entries, normalize) == LoadAll(entries[..i], normalize)
  {
    LoadStopsAt(entries, i, |entries|, normalize);
    assert entries[..|entries|] == entries;
  }
}
