/** The file owner property (`owner`, event `inode_changed`): desired owners are
    user names or uids, resolved against the user directory; the uid is read
    from the file's stat and applied with chown, which only root may do. The
    notices about a non-root process and about missing users are logged once
    per process, through state shared by every owner property. */
module FileOwner {
  import opened RubyValues
  import opened RubyText
  import opened PFile

  // ---------------------------------------------------------------------------
  // The user directory

  /** An entry of the user directory, as Etc returns it. Its uid is an Integer,
      so the source's comparisons `user.uid == ""` are never true. */
  datatype Passwd = Passwd(name: string, uid: int)

  /** The user directory in the order getpwuid and getpwnam search it. */
  type Directory = seq<Passwd>

  predicate HasUid(dir: Directory, u: int) {
    exists k | 0 <= k < |dir| :: dir[k].uid == u
  }

  predicate HasName(dir: Directory, name: string) {
    exists k | 0 <= k < |dir| :: dir[k].name == name
  }

  /** Etc.getpwuid: the first entry with the uid (ArgumentError when there is none). */
  function FindByUid(dir: Directory, u: int): (r: Option<Passwd>)
    ensures r.Some? <==> HasUid(dir, u)
    ensures r.Some? ==> r.value in dir && r.value.uid == u
  {
    if dir == [] then None
    else if dir[0].uid == u then Some(dir[0])
    else
      var rest := FindByUid(dir[1..], u);
      assert forall k | 1 <= k < |dir| :: dir[k] == dir[1..][k - 1];
      rest
  }

  /** Etc.getpwnam: the first entry with the name (ArgumentError when there is none). */
  function FindByName(dir: Directory, name: string): (r: Option<Passwd>)
    ensures r.Some? <==> HasName(dir, name)
    ensures r.Some? ==> r.value in dir && r.value.name == name
  {
    if dir == [] then None
    else if dir[0].name == name then Some(dir[0])
    else
      var rest := FindByName(dir[1..], name);
      assert forall k | 1 <= k < |dir| :: dir[k] == dir[1..][k - 1];
      rest
  }

  /** id2name: the name of the uid's entry; nil for an unknown uid
      (ArgumentError) and for anything that is not an Integer (TypeError),
      both rescued. */
  function Id2Name(dir: Directory, id: RValue): (r: Option<string>)
    ensures r.Some? <==> id.Int? && HasUid(dir, id.i)
    ensures r.Some? ==> Passwd(r.value, id.i) in dir
  {
    if id.Int? then
      match FindByUid(dir, id.i)
      case Some(p) => Some(p.name)
      case None => None
    else None
  }

  /** name2id: the uid of the name's entry, nil for an unknown name. Only the
      ArgumentError of a missing entry is rescued: getpwnam raises TypeError
      on anything that is not a String, and that escapes. */
  function Name2Id(dir: Directory, value: RValue): (r: Result<Option<int>>)
    ensures r.Err? <==> !value.Str?
    ensures r.Err? ==> r.error == TypeError
    ensures value.Str? ==> (r.value.Some? <==> HasName(dir, value.s))
    ensures r.Ok? && r.value.Some? ==> Passwd(value.s, r.value.value) in dir
  {
    if value.Str? then
      match FindByName(dir, value.s)
      case Some(p) => Ok(Some(p.uid))
      case None => Ok(None)
    else Err(TypeError)
  }

  // ---------------------------------------------------------------------------
  // validuser? and shouldprocess

  /** validuser?: a String with a line of digits becomes an Integer through
      String#to_i; an Integer is valid when the directory has its uid; anything
      else is looked up as a name. Ok(None) is the source's `false`. Only
      Strings match the pattern: under Ruby 1.8 a Symbol, nil, true or an
      Integer answers `=~` with no match. */
  function ValidUser(dir: Directory, value: RValue): (r: Result<Option<int>>)
    ensures value.Int? ==> r == Ok(if HasUid(dir, value.i) then Some(value.i) else None)
    ensures value.Str? && HasDigitLine(value.s) ==>
              var n := StringToI(value.s);
              r == Ok(if HasUid(dir, n) then Some(n) else None)
    ensures value.Str? && !HasDigitLine(value.s) ==>
              r.Ok? && (r.value.Some? <==> HasName(dir, value.s)) &&
              (r.value.Some? ==> Passwd(value.s, r.value.value) in dir)
    ensures !(value.Int? || value.Str?) ==> r == Err(TypeError)
    ensures r.Ok? && r.value.Some? ==> HasUid(dir, r.value.value)
  {
    var v := if value.Str? && HasDigitLine(value.s) then Int(StringToI(value.s)) else value;
    if v.Int? then
      if Id2Name(dir, v).Some? then Ok(Some(v.i)) else Ok(None)
    else
      var found := Name2Id(dir, v);
      if found.Ok? && found.value.Some? then
        assert Passwd(v.s, found.value.value) in dir;
        found
      else found
  }

  /** shouldprocess: the uid of a valid user, otherwise the value unchanged
      (the user may not exist yet); the TypeError of validuser? escapes. */
  function ShouldProcess(dir: Directory, value: RValue): (r: Result<RValue>)
    ensures ValidUser(dir, value).Err? ==> r == Err(ValidUser(dir, value).error)
    ensures ValidUser(dir, value) == Ok(None) ==> r == Ok(value)
    ensures ValidUser(dir, value).Ok? && ValidUser(dir, value).value.Some? ==>
              r == Ok(Int(ValidUser(dir, value).value.value))
  {
    match ValidUser(dir, value)
    case Err(e) => Err(e)
    case Ok(None) => Ok(value)
    case Ok(Some(u)) => Ok(Int(u))
  }

  /** Normalizing twice is normalizing once: a resolved uid resolves to itself
      and an unresolved value stays unresolved. */
  lemma ShouldProcessIdempotent(dir: Directory, value: RValue)
    requires ShouldProcess(dir, value).Ok?
    ensures ShouldProcess(dir, ShouldProcess(dir, value).value) == ShouldProcess(dir, value)
  {
  }

  /** A user whose name is a number cannot be named: the name is read as a
      uid, and when no entry has that uid the text is kept as it was. */
  lemma NumericNameIsReadAsUid()
    ensures ShouldProcess([Passwd("7", 500)], Str("7")) == Ok(Str("7"))
  {
    SingleLinePatterns("7");
    StringToIDigits("7");
    assert "7"[..0] == "";
    assert StringToI("7") == 7;
  }

  // ---------------------------------------------------------------------------
  // is_to_s, should_to_s and retrieve

  /** is_to_s: the owner's name when `is` is a known uid, else `is` itself. */
  function IsToS(dir: Directory, actual: RValue): (r: RValue)
    ensures actual.Int? && HasUid(dir, actual.i) ==> r.Str? && Passwd(r.s, actual.i) in dir
    ensures !(actual.Int? && HasUid(dir, actual.i)) ==> r == actual
  {
    match Id2Name(dir, actual)
    case Some(name) => Str(name)
    case None => actual
  }

  /** should_to_s: the name for a known uid, the uid for an unknown one, a
      String as it is; any other desired value (nil when there is none) is a
      Puppet::DevError. */
  function ShouldToS(dir: Directory, should: RValue): (r: Result<RValue>)
    ensures should.Int? ==> r.Ok? && (r.value.Str? <==> HasUid(dir, should.i))
    ensures should.Int? && r.value.Str? ==> Passwd(r.value.s, should.i) in dir
    ensures should.Int? && !HasUid(dir, should.i) ==> r == Ok(should)
    ensures should.Str? ==> r == Ok(should)
    ensures !(should.Int? || should.Str?) ==> r == Err(DevError)
  {
    if should.Int? then Ok(IsToS(dir, should))
    else if should.Str? then Ok(should)
    else Err(DevError)
  }

  /** A directory whose names are unique and none of which is a number. */
  predicate WellFormed(dir: Directory) {
    (forall j, k | 0 <= j < k < |dir| :: dir[j].name != dir[k].name) &&
    (forall k | 0 <= k < |dir| :: !HasDigitLine(dir[k].name))
  }

  /** In a well-formed directory the name printed for a desired uid reads back,
      through shouldprocess, as the same uid. */
  lemma ShouldToSRoundTrip(dir: Directory, u: int)
    requires WellFormed(dir)
    ensures ShouldToS(dir, Int(u)).Ok? && ShouldProcess(dir, ShouldToS(dir, Int(u)).value) == Ok(Int(u))
  {
    var shown := ShouldToS(dir, Int(u)).value;
    if shown.Str? {
      var p := FindByUid(dir, u).value;
      assert shown.s == p.name;
      var k :| 0 <= k < |dir| && dir[k] == p;
      var q := FindByName(dir, p.name).value;
      var j :| 0 <= j < |dir| && dir[j] == q;
      assert j == k;
      assert !HasDigitLine(dir[k].name);
    }
  }

  /** The property's instance variables: `@is` and `@should`. */
  datatype OwnerState = OwnerState(actual: RValue, shoulds: seq<RValue>)

  /** retrieve: `is` becomes the stat's uid, or :notfound when the file is missing. */
  function RetrieveSpec(st: OwnerState, env: FileEnv): (r: OwnerState)
    ensures r.shoulds == st.shoulds
    ensures r.actual == NotFound <==> env.stat.None?
    ensures env.stat.Some? ==> r.actual == Int(env.stat.value.uid)
  {
    match env.stat
    case None => st.(actual := NotFound)
    case Some(stat) => st.(actual := Int(stat.uid))
  }

  // ---------------------------------------------------------------------------
  // The state shared by every owner property

  /** What sync logs at notice level. */
  datatype Notice = CannotManageOwnership | UserMissing(user: RValue)

  /** The class variables: whether the non-root notice was given
      (`@@notifieduid`), and for each missing desired user how many syncs
      found it missing (`@@usermissing`). */
  datatype Registry = Registry(notified: bool, missing: map<RValue, int>)

  /** A missing user's count, 0 for one never seen. */
  function Missed(reg: Registry, v: RValue): int {
    if v in reg.missing then reg.missing[v] else 0
  }

  /** What the gate at the head of sync decides. */
  datatype Verdict = Stop | Raise(error: Error) | Proceed(user: RValue)

  /** The head of sync, as intended: a non-root process gives the notice once
      and stops; a desired user that does not resolve is counted, noticed the
      first time, and stops the sync; a TypeError of validuser? escapes;
      otherwise sync goes on with the uid. */
  function Gate(reg: Registry, isRoot: bool, dir: Directory, should: RValue): (r: (Registry, seq<Notice>, Verdict))
    ensures !isRoot ==> r == (reg.(notified := true), if reg.notified then [] else [CannotManageOwnership], Stop)
    ensures isRoot && ValidUser(dir, should).Err? ==> r == (reg, [], Raise(ValidUser(dir, should).error))
    ensures isRoot && ValidUser(dir, should) == Ok(None) ==>
              r.0 == reg.(missing := reg.missing[should := Missed(reg, should) + 1]) && r.2 == Stop &&
              r.1 == (if should in reg.missing then [] else [UserMissing(should)])
    ensures r.2.Proceed? <==> isRoot && ValidUser(dir, should).Ok? && ValidUser(dir, should).value.Some?
    ensures r.2.Proceed? ==> r.0 == reg && r.1 == [] && r.2.user.Int? && HasUid(dir, r.2.user.i)
  {
    if !isRoot then
      (reg.(notified := true), if reg.notified then [] else [CannotManageOwnership], Stop)
    else
      match ValidUser(dir, should)
      case Err(e) => (reg, [], Raise(e))
      case Ok(Some(u)) => (reg, [], Proceed(Int(u)))
      case Ok(None) =>
        var reg1 := reg.(missing := reg.missing[should := Missed(reg, should) + 1]);
        if should in reg.missing then (reg1, [], Stop)
        else (reg1, [UserMissing(should)], Stop)
  }

  /** The head of sync as written: a user already counted as missing is
      counted again and sync goes on with `user` false. */
  function GateAsWritten(reg: Registry, isRoot: bool, dir: Directory, should: RValue): (r: (Registry, seq<Notice>, Verdict))
    ensures r.0 == Gate(reg, isRoot, dir, should).0 && r.1 == Gate(reg, isRoot, dir, should).1
    ensures r.2 != Gate(reg, isRoot, dir, should).2 <==>
              isRoot && ValidUser(dir, should) == Ok(None) && should in reg.missing
    ensures r.2 != Gate(reg, isRoot, dir, should).2 ==> r.2 == Proceed(Bool(false))
  {
    var g := Gate(reg, isRoot, dir, should);
    if isRoot && ValidUser(dir, should) == Ok(None) && should in reg.missing then (g.0, g.1, Proceed(Bool(false)))
    else g
  }

  /** The rest of sync, once the gate lets it through with `user`: a property
      whose `is` is :notfound retrieves once more and stops when the file is
      still missing or now in sync; otherwise File.chown(user, nil, path),
      whose failure is re-raised as Puppet::Error. Chown fails on anything but
      an Integer uid; `chownSucceeds` says whether the platform accepts that
      uid. The third component is the chown argument, if chown was called. */
  function Finish(st: OwnerState, user: RValue, env: FileEnv, chownSucceeds: bool): (r: (OwnerState, SyncOutcome, Option<RValue>))
    ensures st.actual != NotFound ==> r.0 == st && r.2 == Some(user)
    ensures st.actual == NotFound ==> r.0 == RetrieveSpec(st, env)
    ensures r.2.None? <==> st.actual == NotFound && (env.stat.None? || InSync(r.0.actual, r.0.shoulds))
    ensures r.2.None? ==> r.1 == NoEvent
    ensures r.2.Some? ==> (r.2.value == user &&
                           (r.1 == Event(InodeChanged) <==> user.Int? && chownSucceeds) &&
                           (r.1 != Event(InodeChanged) ==> r.1 == Raised(PuppetError)))
  {
    var st1 := if st.actual == NotFound then RetrieveSpec(st, env) else st;
    if st.actual == NotFound && (st1.actual == NotFound || InSync(st1.actual, st1.shoulds)) then
      (st1, NoEvent, None)
    else if user.Int? && chownSucceeds then (st1, Event(InodeChanged), Some(user))
    else (st1, Raised(PuppetError), Some(user))
  }

  /** Everything one sync produces: the property's state, the shared state,
      the result, the notices logged and the chown argument. */
  datatype OwnerSync = OwnerSync(st: OwnerState, reg: Registry, outcome: SyncOutcome,
                                 notices: seq<Notice>, chown: Option<RValue>)

  /** A sync from the gate's decision on. */
  function AfterGate(st: OwnerState, gate: (Registry, seq<Notice>, Verdict), env: FileEnv, chownSucceeds: bool): OwnerSync {
    match gate.2
    case Stop => OwnerSync(st, gate.0, NoEvent, gate.1, None)
    case Raise(e) => OwnerSync(st, gate.0, Raised(e), gate.1, None)
    case Proceed(user) =>
      var (st1, outcome, chown) := Finish(st, user, env, chownSucceeds);
      OwnerSync(st1, gate.0, outcome, gate.1, chown)
  }

  /** sync as written. */
  function SyncAsWritten(st: OwnerState, reg: Registry, dir: Directory, env: FileEnv,
                         isRoot: bool, chownSucceeds: bool): (r: OwnerSync)
    ensures r.reg == Gate(reg, isRoot, dir, ShouldOf(st.shoulds)).0
  {
    AfterGate(st, GateAsWritten(reg, isRoot, dir, ShouldOf(st.shoulds)), env, chownSucceeds)
  }

  /** A sync of a user who is missing for the second time, on a file that
      exists and is out of sync, as root: chown is called with false, which
      raises TypeError, re-raised as Puppet::Error, instead of returning nil
      as the first sync did. */
  lemma RepeatedMissingUserRaises()
    ensures var st := OwnerState(Int(0), [Str("nobody")]);
            var reg := Registry(false, map[Str("nobody") := 1]);
            var r := SyncAsWritten(st, reg, [], FileEnv(Some(Stat(0x81A4, 0)), false), true, true);
            r.outcome == Raised(PuppetError) && r.chown == Some(Bool(false)) &&
            r.reg.missing[Str("nobody")] == 2
  {
    var user := Str("nobody");
    assert !HasDigitLine("nobody") by {
      SingleLinePatterns("nobody");
      assert !IsDigit("nobody"[0]);
    }
    assert ValidUser([], user) == Ok(None);
    var reg := Registry(false, map[user := 1]);
    var g := GateAsWritten(reg, true, [], user);
    assert g.2 == Proceed(Bool(false));
    assert g.0.missing[user] == 2;
  }

  /** sync as intended: chown is only ever called with a uid the directory
      knows, as root, for the first desired value; the shared state only
      grows; and its result differs from the as-written sync's exactly where
      that one calls chown with false. */
  function SyncSpec(st: OwnerState, reg: Registry, dir: Directory, env: FileEnv,
                    isRoot: bool, chownSucceeds: bool): (r: OwnerSync)
    ensures r.chown.Some? ==> (isRoot && ValidUser(dir, ShouldOf(st.shoulds)).Ok? &&
                               ValidUser(dir, ShouldOf(st.shoulds)).value.Some? &&
                               r.chown.value == Int(ValidUser(dir, ShouldOf(st.shoulds)).value.value) &&
                               HasUid(dir, r.chown.value.i))
    ensures r.outcome == Raised(TypeError) <==> isRoot && ValidUser(dir, ShouldOf(st.shoulds)).Err?
    ensures r.outcome.Raised? ==> r.outcome.error == PuppetError || r.outcome.error == TypeError
    ensures r.outcome.Event? ==> r.outcome.name == InodeChanged && r.chown.Some? && chownSucceeds
    ensures r.outcome == Raised(PuppetError) ==> r.chown.Some? && !chownSucceeds
    ensures !isRoot ==> r.st == st && r.chown.None? && r.outcome == NoEvent
    ensures r.reg == Gate(reg, isRoot, dir, ShouldOf(st.shoulds)).0
    ensures r.reg.missing.Keys >= reg.missing.Keys && (reg.notified ==> r.reg.notified)
    ensures var w := SyncAsWritten(st, reg, dir, env, isRoot, chownSucceeds);
            r.reg == w.reg && r.notices == w.notices &&
            ((r.outcome, r.chown) != (w.outcome, w.chown) <==> w.chown == Some(Bool(false)))
  {
    AfterGate(st, Gate(reg, isRoot, dir, ShouldOf(st.shoulds)), env, chownSucceeds)
  }

  // ---------------------------------------------------------------------------
  // Many syncs against the shared state

  /** The gates of a run of syncs, one desired value each, in order, against
      the shared state: the final shared state and every notice logged. */
  function GateAll(reg: Registry, isRoot: bool, dir: Directory, values: seq<RValue>): (r: (Registry, seq<Notice>))
    ensures |r.1| <= |values|
    ensures reg.notified ==> r.0.notified
    ensures !isRoot ==> r.0.missing == reg.missing && (r.0.notified <==> reg.notified || values != [])
    ensures reg.missing.Keys <= r.0.missing.Keys
    decreases values
  {
    if values == [] then (reg, [])
    else
      var g := Gate(reg, isRoot, dir, values[0]);
      var rest := GateAll(g.0, isRoot, dir, values[1..]);
      (rest.0, g.1 + rest.1)
  }

  /** A value the owner property counts as a missing user. */
  predicate Unresolvable(isRoot: bool, dir: Directory, v: RValue) {
    isRoot && ValidUser(dir, v) == Ok(None)
  }

  /** Each missing user is noticed once per process: exactly when it is
      unresolvable, occurs in the run and had not been counted before. The
      non-root notice is given once, when a run of syncs starts without it. */
  lemma {:induction false} NoticesOnce(reg: Registry, isRoot: bool, dir: Directory, values: seq<RValue>, v: RValue)
    ensures var notices := GateAll(reg, isRoot, dir, values).1;
            multiset(notices)[UserMissing(v)] ==
              if Unresolvable(isRoot, dir, v) && v !in reg.missing && v in values then 1 else 0
    ensures var notices := GateAll(reg, isRoot, dir, values).1;
            multiset(notices)[CannotManageOwnership] ==
              if !isRoot && !reg.notified && values != [] then 1 else 0
  {
    MissingNoticedOnce(reg, isRoot, dir, values, v);
    OwnershipNoticedOnce(reg, isRoot, dir, values);
  }

  lemma {:induction false} MissingNoticedOnce(reg: Registry, isRoot: bool, dir: Directory, values: seq<RValue>, v: RValue)
    ensures multiset(GateAll(reg, isRoot, dir, values).1)[UserMissing(v)] ==
              if Unresolvable(isRoot, dir, v) && v !in reg.missing && v in values then 1 else 0
    decreases values
  {
    if values != [] {
      var g := Gate(reg, isRoot, dir, values[0]);
      GateNotice(reg, isRoot, dir, values[0], v);
      MissingNoticedOnce(g.0, isRoot, dir, values[1..], v);
      var rest := GateAll(g.0, isRoot, dir, values[1..]).1;
      assert GateAll(reg, isRoot, dir, values).1 == g.1 + rest;
      assert multiset(g.1 + rest) == multiset(g.1) + multiset(rest);
      assert v in values <==> v == values[0] || v in values[1..] by {
        assert values == [values[0]] + values[1..];
      }
    }
  }

  /** One gate counts `v` once more exactly when `v` is the value it gates and is unresolvable. */
  lemma GateCount(reg: Registry, isRoot: bool, dir: Directory, x: RValue, v: RValue)
    ensures Missed(Gate(reg, isRoot, dir, x).0, v) == Missed(reg, v) + if Unresolvable(isRoot, dir, v) && v == x then 1 else 0
  {
  }

  /** One gate notices `v` as missing exactly when it counts `v` for the first time. */
  lemma GateNotice(reg: Registry, isRoot: bool, dir: Directory, x: RValue, v: RValue)
    ensures var g := Gate(reg, isRoot, dir, x);
            multiset(g.1)[UserMissing(v)] == (if Unresolvable(isRoot, dir, v) && v !in reg.missing && v == x then 1 else 0) &&
            (v in g.0.missing <==> v in reg.missing || (Unresolvable(isRoot, dir, v) && v == x))
  {
    var g := Gate(reg, isRoot, dir, x);
    if Unresolvable(isRoot, dir, x) && x !in reg.missing {
      assert g.1 == [UserMissing(x)];
    } else {
      assert UserMissing(v) !in g.1;
    }
  }

  lemma {:induction false} OwnershipNoticedOnce(reg: Registry, isRoot: bool, dir: Directory, values: seq<RValue>)
    ensures multiset(GateAll(reg, isRoot, dir, values).1)[CannotManageOwnership] ==
              if !isRoot && !reg.notified && values != [] then 1 else 0
    decreases values
  {
    if values != [] {
      var g := Gate(reg, isRoot, dir, values[0]);
      OwnershipNoticedOnce(g.0, isRoot, dir, values[1..]);
      var rest := GateAll(g.0, isRoot, dir, values[1..]).1;
      assert GateAll(reg, isRoot, dir, values).1 == g.1 + rest;
      assert multiset(g.1 + rest) == multiset(g.1) + multiset(rest);
    }
  }

  /** Each missing user's count grows by one for every sync that finds it
      missing, and nothing else changes the counts. */
  lemma {:induction false} MissingCounts(reg: Registry, isRoot: bool, dir: Directory, values: seq<RValue>, v: RValue)
    ensures var after := GateAll(reg, isRoot, dir, values).0;
            Missed(after, v) == Missed(reg, v) + if Unresolvable(isRoot, dir, v) then multiset(values)[v] else 0
    ensures var after := GateAll(reg, isRoot, dir, values).0;
            v in after.missing <==> v in reg.missing || (Unresolvable(isRoot, dir, v) && v in values)
    decreases values
  {
    if values != [] {
      var g := Gate(reg, isRoot, dir, values[0]);
      GateNotice(reg, isRoot, dir, values[0], v);
      GateCount(reg, isRoot, dir, values[0], v);
      MissingCounts(g.0, isRoot, dir, values[1..], v);
      assert values == [values[0]] + values[1..];
      assert multiset(values) == multiset([values[0]]) + multiset(values[1..]);
    }
  }

  // ---------------------------------------------------------------------------
  // The objects

  /** The owner property's class variables, shared by every instance. */
  class OwnerRegistry {
    var notified: bool
    var missing: map<RValue, int>

    function State(): Registry
      reads this
    {
      Registry(notified, missing)
    }

    /** A process that has logged nothing yet. */
    constructor ()
      ensures State() == Registry(false, map[])
    {
      notified := false;
      missing := map[];
    }
  }

  class OwnerProperty {
    var actual: RValue
    var shoulds: seq<RValue>
    const registry: OwnerRegistry

    function State(): OwnerState
      reads this
    {
      OwnerState(actual, shoulds)
    }

    /** A property with the given (already normalized) desired values, not yet
        retrieved, sharing the class variables in `registry`. */
    constructor (desired: seq<RValue>, registry: OwnerRegistry)
      ensures State() == OwnerState(Nil, desired) && this.registry == registry
    {
      actual := Nil;
      shoulds := desired;
      this.registry := registry;
    }

    method Retrieve(env: FileEnv)
      modifies this
      ensures State() == RetrieveSpec(old(State()), env)
    {
      if env.stat.None? {
        actual := NotFound;
        return;
      }
      actual := Int(env.stat.value.uid);
    }

    /** sync, with the process's root-ness, the user directory, the file and
        the platform's chown as parameters; returns the result, the notices
        logged and the argument chown was called with. */
    method Sync(dir: Directory, env: FileEnv, isRoot: bool, chownSucceeds: bool)
        returns (r: SyncOutcome, notices: seq<Notice>, chown: Option<RValue>)
      modifies this, registry
      ensures OwnerSync(State(), registry.State(), r, notices, chown) ==
              SyncSpec(old(State()), old(registry.State()), dir, env, isRoot, chownSucceeds)
    {
      var should := ShouldOf(shoulds);
      if !isRoot {
        notices := if registry.notified then [] else [CannotManageOwnership];
        registry.notified := true;
        return NoEvent, notices, None;
      }
      var valid := ValidUser(dir, should);
      if valid.Err? {
        return Raised(valid.error), [], None;
      }
      if valid.value.None? {
        if should in registry.missing {
          registry.missing := registry.missing[should := registry.missing[should] + 1];
          return NoEvent, [], None;
        }
        registry.missing := registry.missing[should := 1];
        return NoEvent, [UserMissing(should)], None;
      }
      var user := valid.value.value;
      notices := [];
      if actual == NotFound {
        Retrieve(env);
        if actual == NotFound || InSync(actual, shoulds) {
          return NoEvent, notices, None;
        }
      }
      chown := Some(Int(user));
      r := if chownSucceeds then Event(InodeChanged) else Raised(PuppetError);
    }
  }
}
