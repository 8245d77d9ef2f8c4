/** The per-profile ConfigMap (internal/store/configmap_store.go): two writers update different keys of
    one object, each by a read followed by a JSON merge patch of what it changed. */
module Store {
  import opened Base
  import opened MergePatch

  const KEY_BASELINE := "baseline.json"
  const KEY_POLICY := "policy.yaml"

  /** A ConfigMap as the API server has it: members that are not null, and a data member that is
      absent when there is no data and otherwise holds texts. */
  predicate IsConfigMap(j: Json) {
    && j.Object? && NullFree(j)
    && ("data" in j.fields ==> IsData(j.fields["data"]))
  }

  predicate IsData(j: Json) {
    j.Object? && forall key :: key in j.fields ==> j.fields[key].Text?
  }

  function Data(j: Json): map<string, Json>
    requires IsConfigMap(j)
  {
    if "data" in j.fields then j.fields["data"].fields else map[]
  }

  function Lookup(j: Json, key: string): Option<string>
    requires IsConfigMap(j)
  {
    if key in Data(j) then Some(Data(j)[key].text) else None
  }

  /** cm.Data[key] = value, the map being made when there is none. */
  function SetKey(j: Json, key: string, value: string): (r: Json)
    requires IsConfigMap(j)
    ensures IsConfigMap(r)
  {
    var data := Object(Data(j)[key := Text(value)]);
    assert IsData(data);
    assert NullFree(data);
    Object(j.fields["data" := data])
  }

  /** What patchData leaves on the server when it had read `copy` before. */
  function Patched(server: Json, copy: Json, key: string, value: string): Json
    requires IsConfigMap(server) && IsConfigMap(copy)
  {
    Apply(server, Diff(copy, SetKey(copy, key, value)))
  }

  /** The patch that is sent names only the key: nothing at all when the copy already had the value. */
  lemma PatchNamesOneKey(copy: Json, key: string, value: string)
    requires IsConfigMap(copy)
    ensures Diff(copy, SetKey(copy, key, value)) ==
            if Lookup(copy, key) == Some(value) then Object(map[])
            else Object(map["data" := Object(map[key := Text(value)])])
  {
    var was, now := Data(copy), Data(copy)[key := Text(value)];
    if Lookup(copy, key) == Some(value) {
      assert was[key := Text(value)] == was;
      assert copy.fields["data" := Object(was)] == copy.fields;
      DiffNothing(copy.fields);
    } else {
      DiffOneMember(copy.fields, "data", Object(now)) by { assert key in was ==> was[key] != now[key]; }
      DiffOneMember(was, key, Text(value));
      if "data" !in copy.fields { assert now == map[key := Text(value)]; }
    }
  }

  lemma ApplyOneKey(server: Json, key: string, value: string)
    requires IsConfigMap(server)
    ensures Apply(server, Object(map["data" := Object(map[key := Text(value)])])) == SetKey(server, key, value)
    ensures Apply(server, Object(map[])) == server
  {
    var inner := Object(map[key := Text(value)]);
    ApplyNothing(server.fields);
    ApplyOneMember(server.fields, "data", inner);
    ApplyOneMember(Data(server), key, Text(value));
    if "data" !in server.fields { assert Apply(Null, inner).fields == Data(server)[key := Text(value)]; }
  }

  /** The whole effect of a patch, however old the copy: it sets the key and touches nothing else, or
      does nothing when the copy already had the value. */
  lemma PatchEffect(server: Json, copy: Json, key: string, value: string)
    requires IsConfigMap(server) && IsConfigMap(copy)
    ensures Patched(server, copy, key, value) ==
            if Lookup(copy, key) == Some(value) then server else SetKey(server, key, value)
  {
    PatchNamesOneKey(copy, key, value);
    ApplyOneKey(server, key, value);
  }

  /** So a write takes hold unless a stale copy hid the need for it: exactly when the copy differed, or
      the server had the value all the same. */
  lemma WriteTakesHoldIff(server: Json, copy: Json, key: string, value: string)
    requires IsConfigMap(server) && IsConfigMap(copy)
    ensures IsConfigMap(Patched(server, copy, key, value))
    ensures Lookup(Patched(server, copy, key, value), key) == Some(value) <==>
            Lookup(copy, key) != Some(value) || Lookup(server, key) == Some(value)
  {
    PatchEffect(server, copy, key, value);
  }

  /** With a stale read an update can be lost: writing "a" over "b" from a copy that still shows "a". */
  lemma StaleReadLosesUpdate()
    ensures var server := SetKey(Object(map[]), KEY_BASELINE, "b");
            var copy := SetKey(Object(map[]), KEY_BASELINE, "a");
            Patched(server, copy, KEY_BASELINE, "a") == server && Lookup(server, KEY_BASELINE) == Some("b")
  {
    var server := SetKey(Object(map[]), KEY_BASELINE, "b");
    var copy := SetKey(Object(map[]), KEY_BASELINE, "a");
    PatchEffect(server, copy, KEY_BASELINE, "a");
  }

  // ----- Interleaved writers -----

  datatype Writer = Observer | Proposer

  function KeyOf(w: Writer): string {
    if w == Observer then KEY_BASELINE else KEY_POLICY
  }

  /** The steps of SaveSnapshot and SavePolicyYAML, and of anyone else editing a key. A read returns the
      given version of the object, which a cache may well serve late, or the present one if there is no
      such version yet. */
  datatype Step = Get(w: Writer, version: nat) | Patch(w: Writer, value: string) | Edit(key: string, value: string)

  /** One writer per key. */
  predicate Legal(s: Step) {
    s.Edit? ==> s.key != KEY_BASELINE && s.key != KEY_POLICY
  }

  /** All versions of the object so far, the last being the present one, and what the writers have read. */
  datatype System = System(history: seq<Json>, copies: map<Writer, Json>)

  ghost predicate WellFormed(s: System) {
    && s.history != [] && (forall i :: 0 <= i < |s.history| ==> IsConfigMap(s.history[i]))
    && (forall w :: w in s.copies ==> IsConfigMap(s.copies[w]))
  }

  function Server(s: System): (j: Json)
    requires WellFormed(s)
    ensures IsConfigMap(j)
  {
    s.history[|s.history| - 1]
  }

  /** One step. A patch without a copy does not happen: the code always reads first. */
  function Next(s: System, step: Step): (r: System)
    requires WellFormed(s)
    ensures WellFormed(r)
  {
    match step
    case Get(w, version) =>
      System(s.history, s.copies[w := if version < |s.history| then s.history[version] else Server(s)])
    case Patch(w, value) =>
      if w in s.copies then
        PatchEffect(Server(s), s.copies[w], KeyOf(w), value);
        System(s.history + [Patched(Server(s), s.copies[w], KeyOf(w), value)], s.copies - {w})
      else s
    case Edit(key, value) => System(s.history + [SetKey(Server(s), key, value)], s.copies)
  }

  function Run(doc: Json, steps: seq<Step>): (r: System)
    requires IsConfigMap(doc)
    ensures WellFormed(r)
  {
    if steps == [] then System([doc], map[]) else Next(Run(doc, steps[..|steps| - 1]), steps[|steps| - 1])
  }

  /** The writers that have read since they last wrote. */
  function Pending(steps: seq<Step>): set<Writer> {
    if steps == [] then {}
    else
      var before := Pending(steps[..|steps| - 1]);
      match steps[|steps| - 1]
      case Get(w, _) => before + {w}
      case Patch(w, _) => before - {w}
      case Edit(_, _) => before
  }

  /** The reference: the same writes done one at a time, each in a single step. */
  function Serial(doc: Json, steps: seq<Step>): (r: Json)
    requires IsConfigMap(doc)
    ensures IsConfigMap(r)
  {
    if steps == [] then doc
    else
      var front := steps[..|steps| - 1];
      var before := Serial(doc, front);
      match steps[|steps| - 1]
      case Get(_, _) => before
      case Patch(w, value) => if w in Pending(front) then SetKey(before, KeyOf(w), value) else before
      case Edit(key, value) => SetKey(before, key, value)
  }

  lemma SetKeyLookup(j: Json, key: string, value: string, other: string)
    requires IsConfigMap(j)
    ensures Lookup(SetKey(j, key, value), other) == if other == key then Some(value) else Lookup(j, other)
    ensures Lookup(j, key) == Some(value) ==> SetKey(j, key, value) == j
  {
    if Lookup(j, key) == Some(value) {
      assert Data(j)[key := Text(value)] == Data(j);
      assert SetKey(j, key, value).fields == j.fields;
    }
  }

  lemma {:induction false} PendingIsCopied(doc: Json, steps: seq<Step>)
    requires IsConfigMap(doc)
    ensures Run(doc, steps).copies.Keys == Pending(steps)
  {
    if steps != [] { PendingIsCopied(doc, steps[..|steps| - 1]); }
  }

  // ----- Stale reads: which updates are lost -----

  /** The last step is a patch whose copy shows the value already, although the server has another. */
  ghost predicate Hides(doc: Json, steps: seq<Step>)
    requires IsConfigMap(doc)
  {
    steps != [] &&
    var s, step := Run(doc, steps[..|steps| - 1]), steps[|steps| - 1];
    && step.Patch? && step.w in s.copies
    && Lookup(s.copies[step.w], KeyOf(step.w)) == Some(step.value)
    && Lookup(Server(s), KeyOf(step.w)) != Some(step.value)
  }

  /** After every step, the server has what the writes so far, done atomically, would have left. */
  ghost predicate AlwaysSerial(doc: Json, steps: seq<Step>)
    requires IsConfigMap(doc)
  {
    forall n :: 0 <= n <= |steps| ==> Server(Run(doc, steps[..n])) == Serial(doc, steps[..n])
  }

  /** A step's effect on the server's versions, and when a patch writes what it should. */
  lemma StepEffect(s: System, step: Step)
    requires WellFormed(s)
    ensures var r := Next(s, step);
            match step
            case Get(_, _) => r.history == s.history
            case Edit(key, value) => r.history == s.history + [SetKey(Server(s), key, value)] && r.copies == s.copies
            case Patch(w, value) =>
              if w !in s.copies then r == s
              else
                && r.history == s.history + [Server(r)] && r.copies == s.copies - {w}
                && (Server(r) == SetKey(Server(s), KeyOf(w), value) || Server(r) == Server(s))
                && (Server(r) == SetKey(Server(s), KeyOf(w), value) <==>
                      Lookup(s.copies[w], KeyOf(w)) != Some(value) || Lookup(Server(s), KeyOf(w)) == Some(value))
  {
    if step.Patch? && step.w in s.copies {
      PatchEffect(Server(s), s.copies[step.w], KeyOf(step.w), step.value);
      SetKeyLookup(Server(s), KeyOf(step.w), step.value, KeyOf(step.w));
      hide Patched, SetKey, Lookup, IsConfigMap;
    }
  }

  lemma LastStep(doc: Json, steps: seq<Step>)
    requires IsConfigMap(doc) && steps != []
    ensures var front, step := steps[..|steps| - 1], steps[|steps| - 1];
            && Run(doc, steps) == Next(Run(doc, front), step)
            && Serial(doc, steps) ==
               match step
               case Get(_, _) => Serial(doc, front)
               case Patch(w, value) =>
                 if w in Pending(front) then SetKey(Serial(doc, front), KeyOf(w), value) else Serial(doc, front)
               case Edit(key, value) => SetKey(Serial(doc, front), key, value)
  {
  }

  lemma StepIsSerialIff(doc: Json, steps: seq<Step>)
    requires IsConfigMap(doc) && steps != []
    requires Server(Run(doc, steps[..|steps| - 1])) == Serial(doc, steps[..|steps| - 1])
    ensures Server(Run(doc, steps)) == Serial(doc, steps) <==> !Hides(doc, steps)
  {
    var front := steps[..|steps| - 1];
    LastStep(doc, steps);
    PendingIsCopied(doc, front);
    hide IsConfigMap, SetKey, Lookup, Next, Run, Serial, Pending, KeyOf;
    StepEffect(Run(doc, front), steps[|steps| - 1]);
  }

  /** No lost update, exactly: over a run with reads of any age, the server keeps pace with the same
      writes done atomically if and only if no patch was hidden by its copy. */
  lemma {:induction false} AlwaysSerialIff(doc: Json, steps: seq<Step>)
    requires IsConfigMap(doc)
    ensures AlwaysSerial(doc, steps) <==> forall n :: 0 <= n <= |steps| ==> !Hides(doc, steps[..n])
  {
    hide IsConfigMap, Run, Serial, Hides;
    assert steps[..|steps|] == steps;
    if steps == [] {
      NothingHidden(doc);
    } else {
      var front := steps[..|steps| - 1];
      forall n | 0 <= n <= |front| ensures front[..n] == steps[..n] {}
      AlwaysSerialIff(doc, front);
      assert steps[..|front|] == front == front[..|front|];
      if Server(Run(doc, front)) == Serial(doc, front) { StepIsSerialIff(doc, steps); }
    }
  }

  lemma NothingHidden(doc: Json)
    requires IsConfigMap(doc)
    ensures Server(Run(doc, [])) == Serial(doc, []) && !Hides(doc, [])
  {
  }

  // ----- Reads that show one's own writes -----

  /** The number of the version that the steps so far have led to. */
  function Version(steps: seq<Step>): nat {
    if steps == [] then 0
    else
      var front, last := steps[..|steps| - 1], steps[|steps| - 1];
      if last.Edit? || (last.Patch? && last.w in Pending(front)) then Version(front) + 1 else Version(front)
  }

  /** The version that the writer's last patch made. */
  function OwnVersion(steps: seq<Step>, w: Writer): (v: nat)
    ensures v <= Version(steps)
  {
    if steps == [] then 0
    else
      var front, last := steps[..|steps| - 1], steps[|steps| - 1];
      if last.Patch? && last.w == w && w in Pending(front) then Version(steps) else OwnVersion(front, w)
  }

  /** Every read is at least as new as the reader's own last write; it may miss all others. */
  ghost predicate ReadsOwnWrites(steps: seq<Step>) {
    forall n :: 0 <= n < |steps| && steps[n].Get? ==> steps[n].version >= OwnVersion(steps[..n], steps[n].w)
  }

  /** From the given version on, the writer's key is as the server has it now. */
  ghost predicate SteadySince(s: System, w: Writer, version: nat)
    requires WellFormed(s)
  {
    forall i :: version <= i < |s.history| ==> Lookup(s.history[i], KeyOf(w)) == Lookup(Server(s), KeyOf(w))
  }

  /** Each pending copy shows its writer's own key as the server has it. */
  ghost predicate CopiesCurrent(s: System)
    requires WellFormed(s)
  {
    forall w :: w in s.copies ==> Lookup(s.copies[w], KeyOf(w)) == Lookup(Server(s), KeyOf(w))
  }

  ghost predicate Kept(s: System, steps: seq<Step>)
    requires WellFormed(s)
  {
    && |s.history| == Version(steps) + 1 && s.copies.Keys == Pending(steps)
    && CopiesCurrent(s) && (forall w :: SteadySince(s, w, OwnVersion(steps, w)))
  }

  lemma ReadCounts(steps: seq<Step>)
    requires steps != [] && steps[|steps| - 1].Get?
    ensures var front, step := steps[..|steps| - 1], steps[|steps| - 1];
            && Version(steps) == Version(front) && Pending(steps) == Pending(front) + {step.w}
            && forall w :: OwnVersion(steps, w) == OwnVersion(front, w)
  {
  }

  lemma ReadIsCurrent(s: System, w: Writer, version: nat, own: nat)
    requires WellFormed(s) && CopiesCurrent(s) && SteadySince(s, w, own) && own <= version
    ensures CopiesCurrent(Next(s, Get(w, version)))
  {
    hide IsConfigMap, Lookup;
  }

  lemma SteadyAsBefore(s: System, r: System, w: Writer, own: nat)
    requires WellFormed(s) && WellFormed(r) && r.history == s.history && SteadySince(s, w, own)
    ensures SteadySince(r, w, own)
  {
    hide IsConfigMap, Lookup;
  }

  lemma ReadKeeps(s: System, steps: seq<Step>)
    requires steps != [] && WellFormed(s) && Kept(s, steps[..|steps| - 1])
    requires var step := steps[|steps| - 1];
             step.Get? && step.version >= OwnVersion(steps[..|steps| - 1], step.w)
    ensures Kept(Next(s, steps[|steps| - 1]), steps)
  {
    var front, step := steps[..|steps| - 1], steps[|steps| - 1];
    var r := Next(s, step);
    ReadCounts(steps);
    ReadIsCurrent(s, step.w, step.version, OwnVersion(front, step.w));
    hide IsConfigMap, Lookup, Version, Pending, OwnVersion, SteadySince, CopiesCurrent;
    forall w ensures SteadySince(r, w, OwnVersion(steps, w)) { SteadyAsBefore(s, r, w, OwnVersion(front, w)); }
  }

  lemma StepKeeps(s: System, steps: seq<Step>)
    requires steps != [] && WellFormed(s) && Kept(s, steps[..|steps| - 1])
    requires var step := steps[|steps| - 1];
             Legal(step) && (step.Get? ==> step.version >= OwnVersion(steps[..|steps| - 1], step.w))
    ensures Kept(Next(s, steps[|steps| - 1]), steps)
  {
    var front, step := steps[..|steps| - 1], steps[|steps| - 1];
    var r := Next(s, step);
    hide IsConfigMap, Lookup, SetKey, SteadySince, Next;
    StepEffect(s, step);
    match step
    case Get(_, _) => ReadKeeps(s, steps);
    case Patch(w, value) =>
      assert forall v :: KeyOf(v) == KeyOf(w) ==> v == w;
      if w in s.copies {
        WriteKeeps(s, r, steps, KeyOf(w), value);
      } else {
        forall v ensures SteadySince(r, v, OwnVersion(steps, v)) { assert SteadySince(s, v, OwnVersion(front, v)); }
      }
    case Edit(key, value) => WriteKeeps(s, r, steps, key, value);
  }

  /** A write leaves the other keys alone. */
  lemma WriteKeeps(s: System, r: System, steps: seq<Step>, key: string, value: string)
    requires steps != [] && WellFormed(s) && WellFormed(r) && Kept(s, steps[..|steps| - 1])
    requires || Server(r) == SetKey(Server(s), key, value)
             || (Lookup(Server(s), key) == Some(value) && Server(r) == Server(s))
    requires r.history == s.history + [Server(r)] && r.copies.Keys <= s.copies.Keys
    requires forall w :: w in r.copies ==> r.copies[w] == s.copies[w] && KeyOf(w) != key
    requires forall w :: KeyOf(w) != key ==> OwnVersion(steps, w) == OwnVersion(steps[..|steps| - 1], w)
    requires forall w :: KeyOf(w) == key ==> OwnVersion(steps, w) == |s.history|
    ensures CopiesCurrent(r) && forall w :: SteadySince(r, w, OwnVersion(steps, w))
  {
    hide OwnVersion, Pending, IsConfigMap, SetKey, Lookup;
    forall w ensures KeyOf(w) != key ==> Lookup(Server(r), KeyOf(w)) == Lookup(Server(s), KeyOf(w)) {
      SetKeyLookup(Server(s), key, value, KeyOf(w));
    }
    forall w ensures SteadySince(r, w, OwnVersion(steps, w)) {
      assert SteadySince(s, w, OwnVersion(steps[..|steps| - 1], w));
    }
  }

  lemma {:induction false} CopiesStayCurrent(doc: Json, steps: seq<Step>)
    requires IsConfigMap(doc) && ReadsOwnWrites(steps) && forall i :: 0 <= i < |steps| ==> Legal(steps[i])
    ensures Kept(Run(doc, steps), steps)
  {
    if steps != [] {
      hide Kept;
      var front := steps[..|steps| - 1];
      forall n | 0 <= n < |front| ensures front[..n] == steps[..n] {}
      CopiesStayCurrent(doc, front);
      StepKeeps(Run(doc, front), steps);
    }
  }

  lemma PrefixReads(steps: seq<Step>, n: nat)
    requires ReadsOwnWrites(steps) && n <= |steps|
    ensures ReadsOwnWrites(steps[..n])
  {
    forall m | 0 <= m < n ensures steps[..n][..m] == steps[..m] {}
  }

  lemma NoneHidden(doc: Json, steps: seq<Step>, n: nat)
    requires IsConfigMap(doc) && ReadsOwnWrites(steps) && forall i :: 0 <= i < |steps| ==> Legal(steps[i])
    requires n <= |steps|
    ensures !Hides(doc, steps[..n])
  {
    hide Run, ReadsOwnWrites, Pending, Lookup, IsConfigMap;
    if n > 0 {
      assert steps[..n][..n - 1] == steps[..n - 1];
      PrefixReads(steps, n - 1);
      CopiesStayCurrent(doc, steps[..n - 1]);
    }
  }

  /** With one writer per key, it is enough that each writer's reads show its own writes: every
      interleaving of reads and patches then leaves the document, at every moment, exactly as the same
      writes done atomically, one after the other. Reads of the present version are a special case. */
  lemma Serializable(doc: Json, steps: seq<Step>)
    requires IsConfigMap(doc) && ReadsOwnWrites(steps) && forall i :: 0 <= i < |steps| ==> Legal(steps[i])
    ensures AlwaysSerial(doc, steps)
    ensures Server(Run(doc, steps)) == Serial(doc, steps)
  {
    hide Run, Hides, ReadsOwnWrites, Serial;
    forall n | 0 <= n <= |steps| ensures !Hides(doc, steps[..n]) { NoneHidden(doc, steps, n); }
    AlwaysSerialIff(doc, steps);
    assert steps[..|steps|] == steps;
  }

  /** Reads of the present version show everything. */
  lemma FreshReadsSuffice(steps: seq<Step>)
    requires forall n :: 0 <= n < |steps| && steps[n].Get? ==> steps[n].version >= Version(steps[..n])
    ensures ReadsOwnWrites(steps)
  {
  }

  /** The value last written to a key, by whoever writes it. */
  function LastValue(doc: Json, steps: seq<Step>, key: string): Option<string>
    requires IsConfigMap(doc)
  {
    if steps == [] then Lookup(doc, key)
    else
      var front := steps[..|steps| - 1];
      match steps[|steps| - 1]
      case Patch(w, value) => if w in Pending(front) && KeyOf(w) == key then Some(value) else LastValue(doc, front, key)
      case Edit(k, value) => if k == key then Some(value) else LastValue(doc, front, key)
      case Get(_, _) => LastValue(doc, front, key)
  }

  /** Key by key: each holds its own writer's last value, and a key nobody wrote is untouched. */
  lemma EachKeyHoldsItsLastValue(doc: Json, steps: seq<Step>, key: string)
    requires IsConfigMap(doc) && ReadsOwnWrites(steps) && forall i :: 0 <= i < |steps| ==> Legal(steps[i])
    ensures Lookup(Server(Run(doc, steps)), key) == LastValue(doc, steps, key)
  {
    hide Run, ReadsOwnWrites;
    Serializable(doc, steps);
    SerialLastValue(doc, steps, key);
  }

  lemma {:induction false} SerialLastValue(doc: Json, steps: seq<Step>, key: string)
    requires IsConfigMap(doc)
    ensures Lookup(Serial(doc, steps), key) == LastValue(doc, steps, key)
  {
    if steps != [] {
      var front := steps[..|steps| - 1];
      SerialLastValue(doc, front, key);
      match steps[|steps| - 1]
      case Get(_, _) =>
      case Patch(w, value) => SetKeyLookup(Serial(doc, front), KeyOf(w), value, key);
      case Edit(k, value) => SetKeyLookup(Serial(doc, front), k, value, key);
    }
  }

  /** The value that the writer last wrote, or what there was. */
  function WrittenBy(w: Writer, steps: seq<Step>, before: Option<string>): Option<string> {
    if steps == [] then before
    else
      var front, last := steps[..|steps| - 1], steps[|steps| - 1];
      if last.Patch? && last.w == w && w in Pending(front) then Some(last.value) else WrittenBy(w, front, before)
  }

  lemma {:induction false} LastValueIsOwn(doc: Json, steps: seq<Step>, w: Writer)
    requires IsConfigMap(doc) && forall i :: 0 <= i < |steps| ==> Legal(steps[i])
    ensures LastValue(doc, steps, KeyOf(w)) == WrittenBy(w, steps, Lookup(doc, KeyOf(w)))
  {
    if steps != [] {
      assert forall v: Writer :: KeyOf(v) == KeyOf(w) ==> v == w;
      LastValueIsOwn(doc, steps[..|steps| - 1], w);
    }
  }

  /** So the observer's last snapshot is under "baseline.json", and the last policy under "policy.yaml". */
  lemma BothKeysHold(doc: Json, steps: seq<Step>)
    requires IsConfigMap(doc) && ReadsOwnWrites(steps) && forall i :: 0 <= i < |steps| ==> Legal(steps[i])
    ensures Lookup(Server(Run(doc, steps)), "baseline.json") == WrittenBy(Observer, steps, Lookup(doc, "baseline.json"))
    ensures Lookup(Server(Run(doc, steps)), "policy.yaml") == WrittenBy(Proposer, steps, Lookup(doc, "policy.yaml"))
  {
    hide Run, ReadsOwnWrites, Lookup, WrittenBy, LastValue, IsConfigMap;
    EachKeyHoldsItsLastValue(doc, steps, "baseline.json");
    EachKeyHoldsItsLastValue(doc, steps, "policy.yaml");
    LastValueIsOwn(doc, steps, Observer);
    LastValueIsOwn(doc, steps, Proposer);
  }

  // ----- The store's methods, without interference -----

  datatype Outcome = Ok | NotFound

  class ConfigMapStore {
    var objects: map<(string, string), Json>

    ghost predicate Valid()
      reads this
    {
      forall id :: id in objects ==> IsConfigMap(objects[id])
    }

    constructor ()
      ensures Valid() && objects == map[]
    {
      objects := map[];
    }

    /** Creates the ConfigMap, with no data, unless it exists. */
    method EnsureConfigMap(namespace: string, name: string, metadata: Json)
      requires Valid() && NullFree(metadata)
      modifies this
      ensures Valid() && (namespace, name) in objects
      ensures objects == if (namespace, name) in old(objects) then old(objects)
                         else old(objects)[(namespace, name) := Object(map["metadata" := metadata])]
    {
      if (namespace, name) in objects {
        return;
      }
      objects := objects[(namespace, name) := Object(map["metadata" := metadata])];
    }

    method PatchData(namespace: string, name: string, key: string, value: string) returns (r: Outcome)
      requires Valid()
      modifies this
      ensures Valid()
      ensures r == if (namespace, name) in old(objects) then Ok else NotFound
      ensures objects == if r == NotFound then old(objects)
                         else old(objects)[(namespace, name) := SetKey(old(objects)[(namespace, name)], key, value)]
    {
      var id := (namespace, name);
      if id !in objects {
        return NotFound;
      }
      var copy := objects[id];
      var patch := Diff(copy, SetKey(copy, key, value));
      PatchEffect(copy, copy, key, value);
      SetKeyLookup(copy, key, value, key);
      objects := objects[id := Apply(objects[id], patch)];
      return Ok;
    }
  }
}
