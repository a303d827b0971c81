/** The problem operator's reconciler: one controller brings one cluster object in line with one feature flag, retrying when
    another writer got in between.

    A change and its rollback are opaque; what counts is how many changes minus rollbacks the object carries for a flag. */
module Reconciler {
  import opened Wrappers

  type FlagId = string

  /** A stored object: its version grows with every write; `changes` is what it carries for each flag. */
  datatype Resource = Resource(version: nat, annotations: Option<map<string, string>>, changes: map<FlagId, int>)

  datatype Flag = Flag(id: FlagId, enabled: bool)

  datatype StateAction = Synchronized | ShouldApply | ShouldRollback

  /** `conflict` says whether the error is, or wraps, a version conflict. */
  datatype Error = ContextCancelled | FetchFailed(conflict: bool) | ChangeFailed(conflict: bool) | UpdateFailed(conflict: bool)

  const ANNOTATION_PREFIX := "problem-operator/"
  const ON := "on"
  const OFF := "off"
  const RETRY_STEPS := 5

  function AnnotationName(id: FlagId): string {
    ANNOTATION_PREFIX + id
  }

  /** The annotation counts as on only when it is there and says so. */
  function IsOn(r: Resource, id: FlagId): bool {
    && r.annotations.Some? && AnnotationName(id) in r.annotations.value
    && r.annotations.value[AnnotationName(id)] == ON
  }

  function Changes(r: Resource, id: FlagId): int {
    if id in r.changes then r.changes[id] else 0
  }

  // ----- The cluster and its other writers -----

  /** What another writer may do: anything but to this flag's annotation and to this flag's changes. */
  function OtherWrite(r: Resource, id: FlagId, other: Resource): Resource {
    var name := AnnotationName(id);
    var theirs := if other.annotations.Some? then other.annotations.value - {name} else map[];
    var kept := if r.annotations.Some? && name in r.annotations.value then map[name := r.annotations.value[name]] else map[];
    var annotations := if other.annotations.None? && kept == map[] then None else Some(theirs + kept);
    var changes := (other.changes - {id}) + (if id in r.changes then map[id := r.changes[id]] else map[]);
    Resource(r.version + 1, annotations, changes)
  }

  function OtherWrites(r: Resource, id: FlagId, others: seq<Resource>): Resource {
    if others == [] then r
    else OtherWrite(OtherWrites(r, id, others[..|others| - 1]), id, others[|others| - 1])
  }

  lemma {:induction false} OthersLeaveTheFlag(r: Resource, id: FlagId, others: seq<Resource>)
    ensures var t := OtherWrites(r, id, others);
      && IsOn(t, id) == IsOn(r, id) && Changes(t, id) == Changes(r, id)
      && t.version == r.version + |others|
  {
    if others != [] {
      OthersLeaveTheFlag(r, id, others[..|others| - 1]);
    }
  }

  /** What happens to one attempt: whether the context is over, whether the fetch or the change fails (then the change may
      have done part of its work on the fetched copy), who writes between fetch and update, whether the update fails for
      another reason than a conflict. */
  datatype Attempt = Attempt(
    cancelled: bool,
    fetchError: Option<bool>,
    changeError: Option<bool>,
    partial: int,
    others: seq<Resource>,
    updateError: Option<bool>)

  /** The object store; an update is refused when the object was written since it was fetched. */
  class Client {
    var stored: Resource

    constructor (stored: Resource)
      ensures this.stored == stored
    {
      this.stored := stored;
    }

    method Update(obj: Object, failure: Option<bool>) returns (error: Option<Error>)
      modifies this
      ensures failure.Some? ==> error == Some(UpdateFailed(failure.value)) && stored == old(stored)
      ensures failure.None? && obj.version != old(stored).version ==>
                error == Some(UpdateFailed(true)) && stored == old(stored)
      ensures failure.None? && obj.version == old(stored).version ==>
                error.None? && stored == Resource(obj.version + 1, obj.annotations, obj.changes)
    {
      if failure.Some? {
        return Some(UpdateFailed(failure.value));
      } else if obj.version != stored.version {
        return Some(UpdateFailed(true));
      }
      stored := Resource(obj.version + 1, obj.annotations, obj.changes);
      return None;
    }
  }

  /** The fetched copy; a missing annotation map is made on first access. */
  class Object {
    var version: nat
    var annotations: Option<map<string, string>>
    var changes: map<FlagId, int>

    constructor (r: Resource)
      ensures Value() == r
    {
      version, annotations, changes := r.version, r.annotations, r.changes;
    }

    function Value(): Resource
      reads this
    {
      Resource(version, annotations, changes)
    }

    method GetAllAnnotations() returns (all: map<string, string>)
      modifies this
      ensures annotations == Some(all) && version == old(version) && changes == old(changes)
      ensures all == if old(annotations).Some? then old(annotations).value else map[]
    {
      if annotations.None? {
        annotations := Some(map[]);
      }
      all := annotations.value;
    }

    method SetFlagAnnotation(flag: Flag, value: string)
      modifies this
      ensures Value() == Annotated(old(Value()), flag.id, value)
    {
      var all := GetAllAnnotations();
      annotations := Some(all[AnnotationName(flag.id) := value]);
    }

    /** A missing annotation is written down as off. */
    method GetFlagAnnotation(flag: Flag) returns (on: bool)
      modifies this
      ensures on == IsOn(old(Value()), flag.id) && Value() == Read(old(Value()), flag.id)
    {
      var all := GetAllAnnotations();
      var name := AnnotationName(flag.id);
      if name in all && all[name] == ON {
        return true;
      }
      if name !in all {
        SetFlagAnnotation(flag, OFF);
      }
      return false;
    }

    method GetObjectState(flag: Flag) returns (state: StateAction)
      modifies this
      ensures state == Action(old(Value()), flag) && Value() == Read(old(Value()), flag.id)
    {
      var on := GetFlagAnnotation(flag);
      state := if on == flag.enabled then Synchronized else if flag.enabled then ShouldApply else ShouldRollback;
    }

    method Change(id: FlagId, delta: int)
      modifies this
      ensures Value() == old(Value()).(changes := old(changes)[id := Changes(old(Value()), id) + delta])
    {
      changes := changes[id := Changes(Value(), id) + delta];
    }
  }

  function Annotated(r: Resource, id: FlagId, value: string): Resource {
    r.(annotations := Some((if r.annotations.Some? then r.annotations.value else map[])[AnnotationName(id) := value]))
  }

  /** Reading the annotation leaves a map, and "off" where there was nothing. */
  function Read(r: Resource, id: FlagId): Resource {
    var all := if r.annotations.Some? then r.annotations.value else map[];
    r.(annotations := Some(if AnnotationName(id) in all then all else all[AnnotationName(id) := OFF]))
  }

  function Action(r: Resource, flag: Flag): StateAction {
    if IsOn(r, flag.id) == flag.enabled then Synchronized else if flag.enabled then ShouldApply else ShouldRollback
  }

  // ----- One pass -----

  /** One attempt on values: the stored object afterwards, and the error if there is one. */
  function Try(r: Resource, flag: Flag, a: Attempt): (Resource, Option<Error>) {
    if a.cancelled then (r, Some(ContextCancelled))
    else if a.fetchError.Some? then (r, Some(FetchFailed(a.fetchError.value)))
    else
      var later := OtherWrites(r, flag.id, a.others);
      if Action(r, flag) != Synchronized && a.changeError.Some? then (later, Some(ChangeFailed(a.changeError.value)))
      else if a.updateError.Some? then (later, Some(UpdateFailed(a.updateError.value)))
      else if a.others != [] then (later, Some(UpdateFailed(true)))
      else (Written(r, flag).(version := r.version + 1), None)
  }

  /** What the pass writes: the change that the flag asks for and the annotation that says so. */
  function Written(r: Resource, flag: Flag): Resource {
    match Action(r, flag)
    case Synchronized => Read(r, flag.id)
    case ShouldApply => Changed(Annotated(Read(r, flag.id), flag.id, ON), flag.id, 1)
    case ShouldRollback => Changed(Annotated(Read(r, flag.id), flag.id, OFF), flag.id, -1)
  }

  function Changed(r: Resource, id: FlagId, delta: int): Resource {
    r.(changes := r.changes[id := Changes(r, id) + delta])
  }

  function IsConflict(e: Error): bool {
    !e.ContextCancelled? && e.conflict
  }

  /** Up to five attempts, the next one only after a conflict. */
  function TryAll(r: Resource, flag: Flag, attempts: seq<Attempt>): (Resource, Option<Error>)
    requires 0 < |attempts|
    decreases |attempts|
  {
    var (t, error) := Try(r, flag, attempts[0]);
    if error.Some? && IsConflict(error.value) && |attempts| > 1 then TryAll(t, flag, attempts[1..]) else (t, error)
  }

  class Operator {
    const client: Client

    constructor (client: Client)
      ensures this.client == client
    {
      this.client := client;
    }

    method TryOnce(flag: Flag, a: Attempt) returns (error: Option<Error>)
      modifies client
      ensures (client.stored, error) == Try(old(client.stored), flag, a)
    {
      if a.cancelled {
        return Some(ContextCancelled);
      }
      if a.fetchError.Some? {
        return Some(FetchFailed(a.fetchError.value));
      }
      var obj := new Object(client.stored);
      var state := obj.GetObjectState(flag);
      client.stored := OtherWrites(client.stored, flag.id, a.others);
      OthersLeaveTheFlag(old(client.stored), flag.id, a.others);
      var failed := false;
      match state {
        case ShouldApply =>
          obj.SetFlagAnnotation(flag, ON);
          failed := a.changeError.Some?;
          obj.Change(flag.id, if failed then a.partial else 1);
        case ShouldRollback =>
          obj.SetFlagAnnotation(flag, OFF);
          failed := a.changeError.Some?;
          obj.Change(flag.id, if failed then a.partial else -1);
        case Synchronized =>
      }
      if failed {
        return Some(ChangeFailed(a.changeError.value));
      }
      error := client.Update(obj, a.updateError);
    }

    /** `attempts` says what meets each of the five attempts that a pass may take. */
    method ProcessController(flag: Flag, attempts: seq<Attempt>) returns (error: Option<Error>)
      requires |attempts| == 5
      modifies client
      ensures (client.stored, error) == TryAll(old(client.stored), flag, attempts)
    {
      var steps := 0;
      while true
        invariant steps < RETRY_STEPS
        invariant TryAll(client.stored, flag, attempts[steps..]) == TryAll(old(client.stored), flag, attempts)
        decreases RETRY_STEPS - steps
      {
        assert attempts[steps..][1..] == attempts[steps + 1..];
        error := TryOnce(flag, attempts[steps]);
        if error.None? || !IsConflict(error.value) || steps + 1 == RETRY_STEPS {
          return;
        }
        steps := steps + 1;
      }
    }
  }

  // ----- What every run keeps -----

  /** The object carries the change exactly when its annotation says so. */
  ghost predicate InStep(r: Resource, id: FlagId) {
    Changes(r, id) == if IsOn(r, id) then 1 else 0
  }

  lemma WrittenIsInStep(r: Resource, flag: Flag)
    ensures IsOn(Written(r, flag), flag.id) == flag.enabled
    ensures InStep(r, flag.id) ==> InStep(Written(r, flag), flag.id)
  {
  }

  /** An attempt either commits, and then the annotation equals the flag, or reports an error and leaves the flag's annotation
      and changes as they were. */
  lemma AttemptCommitsOrNot(r: Resource, flag: Flag, a: Attempt)
    ensures var (t, error) := Try(r, flag, a);
      && (error.None? ==> IsOn(t, flag.id) == flag.enabled)
      && (error.Some? ==> IsOn(t, flag.id) == IsOn(r, flag.id) && Changes(t, flag.id) == Changes(r, flag.id))
      && (InStep(r, flag.id) ==> InStep(t, flag.id))
  {
    OthersLeaveTheFlag(r, flag.id, a.others);
    WrittenIsInStep(r, flag);
  }

  /** The same for a whole pass with its retries: success means the annotation equals the flag, failure commits nothing. */
  lemma {:induction false} PassCommitsOrNot(r: Resource, flag: Flag, attempts: seq<Attempt>)
    requires 0 < |attempts|
    ensures var (t, error) := TryAll(r, flag, attempts);
      && (error.None? ==> IsOn(t, flag.id) == flag.enabled)
      && (error.Some? ==> IsOn(t, flag.id) == IsOn(r, flag.id) && Changes(t, flag.id) == Changes(r, flag.id))
      && (InStep(r, flag.id) ==> InStep(t, flag.id))
    decreases |attempts|
  {
    AttemptCommitsOrNot(r, flag, attempts[0]);
    var (t, error) := Try(r, flag, attempts[0]);
    if error.Some? && IsConflict(error.value) && |attempts| > 1 {
      PassCommitsOrNot(t, flag, attempts[1..]);
    }
  }

  /** Nothing stands in the way of this attempt, whether or not a change is needed. */
  predicate IsClear(r: Resource, flag: Flag, a: Attempt) {
    && !a.cancelled && a.fetchError.None? && a.updateError.None? && a.others == []
    && (Action(r, flag) != Synchronized ==> a.changeError.None?)
  }

  predicate MeetsConflict(r: Resource, flag: Flag, a: Attempt) {
    var error := Try(r, flag, a).1;
    error.Some? && IsConflict(error.value)
  }

  /** The stored object before the k-th attempt. */
  function Before(r: Resource, flag: Flag, attempts: seq<Attempt>, k: nat): Resource
    requires k <= |attempts|
  {
    if k == 0 then r else Try(Before(r, flag, attempts, k - 1), flag, attempts[k - 1]).0
  }

  ghost predicate ClearAfterConflicts(r: Resource, flag: Flag, attempts: seq<Attempt>, k: nat)
    requires k < |attempts|
  {
    && IsClear(Before(r, flag, attempts, k), flag, attempts[k])
    && forall j :: 0 <= j < k ==> MeetsConflict(Before(r, flag, attempts, j), flag, attempts[j])
  }

  lemma {:induction false} BeforeShifts(r: Resource, flag: Flag, attempts: seq<Attempt>, k: nat)
    requires 0 < k <= |attempts|
    ensures Before(r, flag, attempts, k) == Before(Try(r, flag, attempts[0]).0, flag, attempts[1..], k - 1)
  {
    if k > 1 {
      BeforeShifts(r, flag, attempts, k - 1);
      assert attempts[1..][k - 2] == attempts[k - 1];
    }
  }

  /** A pass succeeds exactly when one of its attempts meets no obstacle and all those before it met a conflict. */
  lemma {:induction false} PassSucceedsIff(r: Resource, flag: Flag, attempts: seq<Attempt>)
    requires 0 < |attempts|
    ensures TryAll(r, flag, attempts).1.None?
       <==> exists k :: 0 <= k < |attempts| && ClearAfterConflicts(r, flag, attempts, k)
    decreases |attempts|
  {
    var t, rest := Try(r, flag, attempts[0]).0, attempts[1..];
    if MeetsConflict(r, flag, attempts[0]) && |attempts| > 1 {
      PassSucceedsIff(t, flag, rest);
      forall k | 0 < k < |attempts|
        ensures ClearAfterConflicts(r, flag, attempts, k) <==> ClearAfterConflicts(t, flag, rest, k - 1)
      {
        ClearShifts(r, flag, attempts, k);
      }
      if TryAll(t, flag, rest).1.None? {
        var k :| 0 <= k < |rest| && ClearAfterConflicts(t, flag, rest, k);
        assert ClearAfterConflicts(r, flag, attempts, k + 1);
      }
    } else if IsClear(r, flag, attempts[0]) {
      assert ClearAfterConflicts(r, flag, attempts, 0);
    }
  }

  lemma ClearShifts(r: Resource, flag: Flag, attempts: seq<Attempt>, k: nat)
    requires 0 < k < |attempts| && MeetsConflict(r, flag, attempts[0])
    ensures ClearAfterConflicts(r, flag, attempts, k)
       <==> ClearAfterConflicts(Try(r, flag, attempts[0]).0, flag, attempts[1..], k - 1)
  {
    var t, rest := Try(r, flag, attempts[0]).0, attempts[1..];
    forall j | 0 < j <= k
      ensures Before(r, flag, attempts, j) == Before(t, flag, rest, j - 1) && attempts[j] == rest[j - 1]
    {
      BeforeShifts(r, flag, attempts, j);
    }
    if ClearAfterConflicts(t, flag, rest, k - 1) {
      forall j | 0 <= j < k ensures MeetsConflict(Before(r, flag, attempts, j), flag, attempts[j]) {
        if j > 0 {
          assert MeetsConflict(Before(t, flag, rest, j - 1), flag, rest[j - 1]);
        }
      }
    }
    if ClearAfterConflicts(r, flag, attempts, k) {
      forall j | 0 <= j < k - 1 ensures MeetsConflict(Before(t, flag, rest, j), flag, rest[j]) {
        assert MeetsConflict(Before(r, flag, attempts, j + 1), flag, attempts[j + 1]);
      }
    }
  }

  // ----- Runs -----

  datatype Step = Pass(enabled: bool, attempts: seq<Attempt>) | Others(other: Resource)

  function After(r: Resource, id: FlagId, s: Step): Resource {
    match s
    case Pass(enabled, attempts) => if attempts == [] then r else TryAll(r, Flag(id, enabled), attempts).0
    case Others(other) => OtherWrite(r, id, other)
  }

  function AfterAll(r: Resource, id: FlagId, steps: seq<Step>): Resource {
    if steps == [] then r else After(AfterAll(r, id, steps[..|steps| - 1]), id, steps[|steps| - 1])
  }

  /** Over any run of flag flips, passes with conflicts and failing changes, and writes of others: the object carries the
      change once when its annotation is on, and not at all otherwise. */
  lemma {:induction false} RunsStayInStep(r: Resource, id: FlagId, steps: seq<Step>)
    requires InStep(r, id)
    ensures InStep(AfterAll(r, id, steps), id)
  {
    if steps != [] {
      var t, s := AfterAll(r, id, steps[..|steps| - 1]), steps[|steps| - 1];
      RunsStayInStep(r, id, steps[..|steps| - 1]);
      match s
      case Pass(enabled, attempts) =>
        if attempts != [] {
          PassCommitsOrNot(t, Flag(id, enabled), attempts);
        }
      case Others(other) =>
        OthersLeaveTheFlag(t, id, [other]);
        assert [other][..0] == [];
        assert OtherWrites(t, id, [other]) == OtherWrite(t, id, other);
    }
  }

  // ----- Another writer -----

  /** The attempt gets through to its update without an error of its own. */
  predicate GetsToUpdate(a: Attempt) {
    !a.cancelled && a.fetchError.None? && a.changeError.None? && a.updateError.None?
  }

  /** An update that is refused because somebody else wrote in between is tried again, on what they wrote. */
  lemma OtherWriterMeansRetry(r: Resource, flag: Flag, attempts: seq<Attempt>)
    requires |attempts| >= 2 && GetsToUpdate(attempts[0]) && attempts[0].others != []
    ensures TryAll(r, flag, attempts) == TryAll(OtherWrites(r, flag.id, attempts[0].others), flag, attempts[1..])
  {
  }

  /** So a pass gets through as soon as nobody writes in between, if that happens in time. */
  lemma {:induction false} UndisturbedAttemptSucceeds(r: Resource, flag: Flag, attempts: seq<Attempt>, k: nat)
    requires k < |attempts| && (forall j :: 0 <= j <= k ==> GetsToUpdate(attempts[j]))
    requires attempts[k].others == [] && forall j :: 0 <= j < k ==> attempts[j].others != []
    ensures var (t, error) := TryAll(r, flag, attempts);
      && error.None? && IsOn(t, flag.id) == flag.enabled
      && Changes(t, flag.id) == Changes(r, flag.id)
           + if flag.enabled && !IsOn(r, flag.id) then 1 else if !flag.enabled && IsOn(r, flag.id) then -1 else 0
    decreases |attempts|
  {
    if k > 0 {
      var t := OtherWrites(r, flag.id, attempts[0].others);
      OtherWriterMeansRetry(r, flag, attempts);
      OthersLeaveTheFlag(r, flag.id, attempts[0].others);
      assert forall j :: 0 <= j <= k - 1 ==> attempts[1..][j] == attempts[j + 1];
      UndisturbedAttemptSucceeds(t, flag, attempts[1..], k - 1);
    }
  }

  /** An object that was never touched, and a flag that is on: one write, one change, and the annotation says so. */
  lemma FirstPassChangesOnce(r: Resource, id: FlagId, attempts: seq<Attempt>)
    requires r.annotations.None? && id !in r.changes
    requires 0 < |attempts| && GetsToUpdate(attempts[0]) && attempts[0].others == []
    ensures var (t, error) := TryAll(r, Flag(id, true), attempts);
      && error.None? && t.version == r.version + 1 && t.changes == r.changes[id := 1]
      && t.annotations == Some(map["problem-operator/" + id := "on"])
  {
    var name := AnnotationName(id);
    assert map[][name := OFF][name := ON] == map[name := ON];
  }

  /** A context that is over, and an object that cannot be fetched for another reason than a conflict, end the pass at once. */
  lemma HardErrorsEndThePass(r: Resource, flag: Flag, attempts: seq<Attempt>)
    requires 0 < |attempts|
    ensures attempts[0].cancelled ==> TryAll(r, flag, attempts) == (r, Some(ContextCancelled))
    ensures !attempts[0].cancelled && attempts[0].fetchError == Some(false) ==>
              TryAll(r, flag, attempts) == (r, Some(FetchFailed(false)))
  {
  }

  // ----- Several flags on one object -----

  lemma NamesDiffer(a: FlagId, b: FlagId)
    requires a != b
    ensures AnnotationName(a) != AnnotationName(b)
  {
    var n := |ANNOTATION_PREFIX|;
    assert AnnotationName(a)[n..] == a && AnnotationName(b)[n..] == b;
  }

  ghost predicate SameFlag(r: Resource, t: Resource, id: FlagId) {
    IsOn(t, id) == IsOn(r, id) && Changes(t, id) == Changes(r, id)
  }

  /** A pass for one flag, when nobody else writes, does not touch another flag's annotation or changes. */
  lemma {:induction false} PassSparesOtherFlags(r: Resource, flag: Flag, attempts: seq<Attempt>, other: FlagId)
    requires 0 < |attempts| && other != flag.id && forall k :: 0 <= k < |attempts| ==> attempts[k].others == []
    ensures SameFlag(r, TryAll(r, flag, attempts).0, other)
    decreases |attempts|
  {
    NamesDiffer(flag.id, other);
    var (t, error) := Try(r, flag, attempts[0]);
    assert SameFlag(r, t, other);
    if error.Some? && IsConflict(error.value) && |attempts| > 1 {
      PassSparesOtherFlags(t, flag, attempts[1..], other);
    }
  }

  datatype FlagPass = FlagPass(flag: Flag, attempts: seq<Attempt>)

  ghost predicate IsQuiet(p: FlagPass) {
    0 < |p.attempts| && forall k :: 0 <= k < |p.attempts| ==> p.attempts[k].others == []
  }

  ghost function AfterPasses(r: Resource, passes: seq<FlagPass>): Resource
    requires forall k :: 0 <= k < |passes| ==> IsQuiet(passes[k])
  {
    if passes == [] then r
    else
      var p := passes[|passes| - 1];
      assert IsQuiet(p);
      TryAll(AfterPasses(r, passes[..|passes| - 1]), p.flag, p.attempts).0
  }

  /** The controllers of all flags take turns on one object, and each flag's change stays in step with its annotation. */
  lemma {:induction false} AllFlagsStayInStep(r: Resource, passes: seq<FlagPass>, id: FlagId)
    requires InStep(r, id) && forall k :: 0 <= k < |passes| ==> IsQuiet(passes[k])
    ensures InStep(AfterPasses(r, passes), id)
  {
    if passes != [] {
      var t, p := AfterPasses(r, passes[..|passes| - 1]), passes[|passes| - 1];
      AllFlagsStayInStep(r, passes[..|passes| - 1], id);
      assert IsQuiet(p);
      if p.flag.id == id {
        PassCommitsOrNot(t, p.flag, p.attempts);
      } else {
        PassSparesOtherFlags(t, p.flag, p.attempts, id);
      }
    }
  }
}
