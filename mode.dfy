/** The file mode property (`mode`, event `inode_changed`): desired modes are
    octal numbers, read from the file's stat with the permission mask, widened
    on directories so that every read bit brings its execute bit, and applied
    with chmod. */
module FileMode {
  import opened RubyValues
  import opened RubyText
  import opened PFile

  // The permission bits of <sys/stat.h> as 12-bit vectors; the source writes
  // them in octal (0400, 040, 04, ...), Dafny has no octal literals.
  const S_ISUID: bv12 := 0x800  // 04000
  const S_ISGID: bv12 := 0x400  // 02000
  const S_ISVTX: bv12 := 0x200  // 01000
  const S_IRUSR: bv12 := 0x100  // 0400
  const S_IWUSR: bv12 := 0x80   // 0200
  const S_IXUSR: bv12 := 0x40   // 0100
  const S_IRGRP: bv12 := 0x20   // 040
  const S_IWGRP: bv12 := 0x10   // 020
  const S_IXGRP: bv12 := 0x8    // 010
  const S_IROTH: bv12 := 0x4    // 04
  const S_IWOTH: bv12 := 0x2    // 02
  const S_IXOTH: bv12 := 0x1    // 01

  /** The three execute bits together. */
  const ExecBits: bv12 := S_IXUSR | S_IXGRP | S_IXOTH

  /** 07777: the permission bits of a stat mode, file type left out. */
  const PermissionMask := 0xFFF

  // ---------------------------------------------------------------------------
  // shouldprocess

  /** Normalizes a desired mode. A String must have a line of digits
      (Puppet::Error otherwise), gets a 0 in front unless a line already starts
      with one, and is converted by Kernel#Integer, so read in octal; a failed
      conversion is a Puppet::DevError. Any other value is kept as it is. */
  function ShouldProcess(should: RValue): (r: Result<RValue>)
    ensures !should.Str? ==> r == Ok(should)
    ensures should.Str? ==> (r == Err(PuppetError) <==> !HasDigitLine(should.s))
    ensures should.Str? && HasDigitLine(should.s) ==>
              r == Err(DevError) || (r.Ok? && r.value.Int? && r.value.i >= 0)
  {
    match should
    case Str(s) =>
      if !HasDigitLine(s) then Err(PuppetError)
      else
        var text := if HasZeroLine(s) then s else "0" + s;
        (match IntegerOf(text)
         case Some(n) => Ok(Int(n))
         case None => Err(DevError))
    case _ => Ok(should)
  }

  /** A string of digits is read in octal whether or not it starts with 0, and
      an 8 or a 9 in it is a DevError, not a Puppet::Error. */
  lemma ShouldProcessDigits(s: string)
    requires s != [] && AllDigits(s)
    ensures ShouldProcess(Str(s)) == if AllOctal(s) then Ok(Int(NumberValue(s, 8))) else Err(DevError)
  {
    SingleLinePatterns(s);
    if s[0] == '0' {
      StripDigits(s);
    } else {
      var text := "0" + s;
      assert text[1..] == s;
      assert AllDigits(text);
      assert HasZeroLine(s) <==> false;
      LeadingZeroKeepsValue(s, 8);
      StripDigits(text);
      assert AllOctal(text) <==> AllOctal(s);
    }
  }

  /** On a single line, anything but a non-empty run of digits is a Puppet::Error. */
  lemma ShouldProcessRejectsNonDigits(s: string)
    requires '\n' !in s && !(s != [] && AllDigits(s))
    ensures ShouldProcess(Str(s)) == Err(PuppetError)
  {
    SingleLinePatterns(s);
  }

  /** An example of ShouldProcessDigits: "644" is read in octal, 0644, that is 420. */
  lemma ShouldProcess644()
    ensures ShouldProcess(Str("644")) == Ok(Int(420))
  {
    assert AllDigits("644") && AllOctal("644");
    assert "644"[..2] == "64" && "64"[..1] == "6" && "6"[..0] == "";
    assert NumberValue("644", 8) == 420;
    ShouldProcessDigits("644");
  }

  /** An example of ShouldProcessDigits: a leading 0 changes nothing, "0644" is 420 as well. */
  lemma ShouldProcess0644()
    ensures ShouldProcess(Str("0644")) == Ok(Int(420))
  {
    var z := "0644";
    assert AllDigits(z) && AllOctal(z);
    assert z[..3] == "064" && "064"[..2] == "06" && "06"[..1] == "0" && "0"[..0] == "";
    assert NumberValue(z, 8) == 420;
    ShouldProcessDigits(z);
  }

  /** An example of ShouldProcessRejectsNonDigits: a letter among the digits is refused as not a number. */
  lemma ShouldProcessLetter()
    ensures ShouldProcess(Str("7a4")) == Err(PuppetError)
  {
    assert !IsDigit("7a4"[1]);
    ShouldProcessRejectsNonDigits("7a4");
  }

  /** An example of ShouldProcessDigits: a non-octal digit passes the pattern but fails the conversion. */
  lemma ShouldProcessNonOctal()
    ensures ShouldProcess(Str("648")) == Err(DevError)
  {
    assert AllDigits("648") && !IsOctalDigit("648"[2]);
    ShouldProcessDigits("648");
  }

  // ---------------------------------------------------------------------------
  // dirmask

  /** The three permission classes. */
  datatype Who = Owner | Group | Others

  function ReadBit(w: Who): bv12 {
    match w
    case Owner => S_IRUSR
    case Group => S_IRGRP
    case Others => S_IROTH
  }

  function ExecBit(w: Who): bv12 {
    match w
    case Owner => S_IXUSR
    case Group => S_IXGRP
    case Others => S_IXOTH
  }

  /** The low twelve bits of an Integer in two's complement, which are all that
      Ruby's `&` with a permission bit looks at. */
  function Low(v: int): bv12 {
    (v % 0x1000) as bv12
  }

  /** `v & bit != 0`. */
  predicate HasBit(v: int, bit: bv12) {
    Low(v) & bit != 0
  }

  /** The body of dirmask on the permission bits: each read bit brings its
      execute bit, and no other bit changes. */
  function DirMaskBits(b: bv12): (r: bv12)
    ensures r & !ExecBits == b & !ExecBits
  {
    var owner := if b & S_IRUSR != 0 then b | S_IXUSR else b;
    var group := if owner & S_IRGRP != 0 then owner | S_IXGRP else owner;
    if group & S_IROTH != 0 then group | S_IXOTH else group
  }

  /** Each read bit brings the matching execute bit, and no execute bit
      appears without one of the two. */
  lemma DirMaskBitsExec(b: bv12, w: Who)
    ensures DirMaskBits(b) & ExecBit(w) != 0 <==> b & ExecBit(w) != 0 || b & ReadBit(w) != 0
  {
  }

  lemma DirMaskBitsIdempotent(b: bv12)
    ensures DirMaskBits(DirMaskBits(b)) == DirMaskBits(b)
  {
  }

  /** An Integer splits into the part above 07777 and the twelve bits below. */
  lemma SplitAt12(high: int, m: int)
    requires 0 <= m < 0x1000
    ensures (high * 0x1000 + m) % 0x1000 == m
    ensures (high * 0x1000 + m) / 0x1000 == high
  {
  }

  /** The same split, with the twelve bits as a bit-vector. */
  lemma LowOf(high: int, b: bv12)
    ensures Low(high * 0x1000 + b as int) == b
    ensures (high * 0x1000 + b as int) / 0x1000 == high
  {
    SplitAt12(high, b as int);
  }

  /** dirmask on an Integer: off directories nothing changes at all; on a
      directory the twelve low bits are widened and, whatever the sign, no bit
      above them changes. */
  function DirMaskInt(v: int, isDirectory: bool): (r: int)
    ensures !isDirectory ==> r == v
    ensures isDirectory ==> Low(r) == DirMaskBits(Low(v))
    ensures r / 0x1000 == v / 0x1000
  {
    if !isDirectory then v
    else
      var high := v / 0x1000;
      var b := DirMaskBits(Low(v));
      LowOf(high, b);
      high * 0x1000 + b as int
  }

  /** On a directory each read bit of an Integer mode brings the matching
      execute bit, and no execute bit appears without one of the two. */
  lemma DirMaskIntExec(v: int, w: Who)
    ensures HasBit(DirMaskInt(v, true), ExecBit(w)) <==> HasBit(v, ExecBit(w)) || HasBit(v, ReadBit(w))
  {
    DirMaskBitsExec(Low(v), w);
  }

  /** On a directory dirmask leaves every bit but the execute bits alone. */
  lemma DirMaskIntKeeps(v: int, isDirectory: bool)
    ensures Low(DirMaskInt(v, isDirectory)) & !ExecBits == Low(v) & !ExecBits
  {
  }

  /** dirmask on an Integer given as its high part and its twelve low bits. */
  lemma DirMaskIntSplit(high: int, b: bv12)
    ensures DirMaskInt(high * 0x1000 + b as int, true) == high * 0x1000 + DirMaskBits(b) as int
  {
    LowOf(high, b);
  }

  /** Widening a mode twice is widening it once. */
  lemma DirMaskIntIdempotent(v: int, isDirectory: bool)
    ensures DirMaskInt(DirMaskInt(v, isDirectory), isDirectory) == DirMaskInt(v, isDirectory)
  {
    if isDirectory {
      var b := DirMaskBits(Low(v));
      DirMaskBitsIdempotent(Low(v));
      DirMaskIntSplit(v / 0x1000, b);
    }
  }

  /** dirmask on any desired value. Ruby's nil, true and false answer `&` and
      `|` so that they all come out as true; a Symbol, a String or any other
      object has no `&` and raises NoMethodError. Off directories the value is
      returned untouched. */
  function DirMask(v: RValue, isDirectory: bool): (r: Result<RValue>)
    ensures !isDirectory ==> r == Ok(v)
    ensures r.Err? <==> isDirectory && (v.Str? || v.Sym? || v.Other?)
    ensures r.Err? ==> r.error == NoMethodError
    ensures v.Int? ==> r == Ok(Int(DirMaskInt(v.i, isDirectory)))
    ensures isDirectory && (v.Nil? || v.Bool?) ==> r == Ok(Bool(true))
  {
    if !isDirectory then Ok(v)
    else
      match v
      case Int(i) => Ok(Int(DirMaskInt(i, true)))
      case Nil => Ok(Bool(true))
      case Bool(_) => Ok(Bool(true))
      case _ => Err(NoMethodError)
  }

  /** A masked value is its own mask. */
  lemma DirMaskIdempotent(v: RValue, isDirectory: bool)
    requires DirMask(v, isDirectory).Ok?
    ensures DirMask(DirMask(v, isDirectory).value, isDirectory) == DirMask(v, isDirectory)
  {
    if v.Int? {
      DirMaskIntIdempotent(v.i, isDirectory);
    }
  }

  /** `@should.collect { |s| dirmask(s) }`: every desired value through dirmask,
      or the NoMethodError of the first that has no `&`. */
  function MaskAll(shoulds: seq<RValue>, isDirectory: bool): (r: Result<seq<RValue>>)
    ensures r.Ok? <==> forall k | 0 <= k < |shoulds| :: DirMask(shoulds[k], isDirectory).Ok?
    ensures r.Ok? ==> |r.value| == |shoulds|
    ensures r.Ok? ==> forall k | 0 <= k < |shoulds| :: DirMask(shoulds[k], isDirectory) == Ok(r.value[k])
    ensures r.Err? ==> r.error == NoMethodError
  {
    if shoulds == [] then Ok([])
    else
      match DirMask(shoulds[0], isDirectory)
      case Err(e) => Err(e)
      case Ok(m) =>
        match MaskAll(shoulds[1..], isDirectory)
        case Err(e) => Err(e)
        case Ok(ms) => Ok([m] + ms)
  }

  /** Masking an already masked list changes nothing, so repeating the
      adjustment on every retrieve is harmless. */
  lemma {:induction false} MaskAllIdempotent(shoulds: seq<RValue>, isDirectory: bool)
    requires MaskAll(shoulds, isDirectory).Ok?
    ensures MaskAll(MaskAll(shoulds, isDirectory).value, isDirectory) == MaskAll(shoulds, isDirectory)
  {
    var ms := MaskAll(shoulds, isDirectory).value;
    forall k | 0 <= k < |ms|
      ensures DirMask(ms[k], isDirectory) == Ok(ms[k])
    {
      assert DirMask(shoulds[k], isDirectory) == Ok(ms[k]);
      DirMaskIdempotent(shoulds[k], isDirectory);
    }
    var again := MaskAll(ms, isDirectory);
    assert again.Ok?;
    assert forall k | 0 <= k < |ms| :: again.value[k] == ms[k];
    assert again.value == ms;
  }

  // ---------------------------------------------------------------------------
  // is_to_s and should_to_s

  /** `"%o" % v` for an Integer, the Symbol itself for a Symbol, DevError otherwise. */
  function Render(v: RValue): (r: Result<RValue>)
    ensures v.Int? ==> r.Ok? && r.value.Str?
    ensures v.Int? && v.i >= 0 ==> AllDigits(r.value.s) && NumberValue(r.value.s, 8) == v.i
    ensures v.Int? && v.i > 0 ==> r.value.s[0] != '0'
    ensures v.Sym? ==> r == Ok(v)
    ensures !(v.Int? || v.Sym?) ==> r == Err(DevError)
  {
    match v
    case Int(i) => Ok(Str(FormatOctal(i)))
    case Sym(_) => Ok(v)
    case _ => Err(DevError)
  }

  /** The octal text of a non-negative mode reads back, through shouldprocess,
      as the same mode. */
  lemma RenderRoundTrip(n: nat)
    ensures Render(Int(n)).Ok? && ShouldProcess(Render(Int(n)).value) == Ok(Int(n))
  {
    var s := OctalDigits(n);
    ShouldProcessDigits(s);
  }

  /** The text of a negative mode starts with "..", so shouldprocess refuses it. */
  lemma RenderNegativeRejected(n: int)
    requires n < 0
    ensures Render(Int(n)).Ok? && ShouldProcess(Render(Int(n)).value) == Err(PuppetError)
  {
    var s := FormatOctal(n);
    assert s[0] == '.' && !IsDigit(s[0]);
    assert '\n' !in s by {
      var d := NegativeOctalDigits(n);
      assert s == ".." + d;
      assert forall i | 2 <= i < |s| :: s[i] == d[i - 2] && IsDigit(s[i]);
    }
    ShouldProcessRejectsNonDigits(s);
  }

  // ---------------------------------------------------------------------------
  // retrieve and sync, on the property's state

  /** The property's instance variables: `@is`, `@should` and whether `@fixed` is defined. */
  datatype ModeState = ModeState(actual: RValue, shoulds: seq<RValue>, fixed: bool)

  /** retrieve: `is` becomes the stat mode's permission bits, or :notfound when
      the file is missing; with a stat, and unless `@fixed` is defined, the
      desired list goes through dirmask (a NoMethodError there leaves the list
      as it was, `is` already set). */
  function RetrieveSpec(st: ModeState, env: FileEnv): (r: (ModeState, Outcome))
    ensures r.0.fixed == st.fixed
    ensures env.stat.None? ==> r == (st.(actual := NotFound), Pass)
    ensures env.stat.Some? ==> r.0.actual.Int? && 0 <= r.0.actual.i <= PermissionMask
    ensures env.stat.Some? ==> (env.stat.value.mode - r.0.actual.i) % (PermissionMask + 1) == 0
    ensures st.fixed ==> r.0.shoulds == st.shoulds && r.1 == Pass
    ensures r.1.Fail? ==> r.1 == Fail(NoMethodError) && r.0.shoulds == st.shoulds
    ensures r.1 == Pass && env.stat.Some? && !st.fixed ==>
              MaskAll(st.shoulds, env.isDirectory).Ok? &&
              r.0.shoulds == MaskAll(st.shoulds, env.isDirectory).value
  {
    match env.stat
    case None => (st.(actual := NotFound), Pass)
    case Some(stat) =>
      var st1 := st.(actual := Int(stat.mode % (PermissionMask + 1)));
      if st.fixed then (st1, Pass)
      else
        match MaskAll(st.shoulds, env.isDirectory)
        case Err(e) => (st1, Fail(e))
        case Ok(ms) => (st1.(shoulds := ms), Pass)
  }

  /** Retrieving twice in a row is retrieving once. */
  lemma RetrieveTwice(st: ModeState, env: FileEnv)
    requires RetrieveSpec(st, env).1 == Pass
    ensures RetrieveSpec(RetrieveSpec(st, env).0, env) == RetrieveSpec(st, env)
  {
    if env.stat.Some? && !st.fixed {
      MaskAllIdempotent(st.shoulds, env.isDirectory);
    }
  }

  /** The chmod half of sync: nothing for a desired :notfound; otherwise
      File.chmod with the desired mode, which raises (re-raised as
      Puppet::Error) unless the mode is an Integer and the platform accepts it. */
  function ChmodStep(st: ModeState, chmodSucceeds: bool): (r: (ModeState, SyncOutcome, Option<RValue>))
    ensures r.0 == st
    ensures ShouldOf(st.shoulds) == NotFound <==> r.2.None?
    ensures r.2.Some? ==> r.2.value == ShouldOf(st.shoulds)
    ensures r.1 == Event(InodeChanged) <==> r.2.Some? && r.2.value.Int? && chmodSucceeds
    ensures r.2.Some? && r.1 != Event(InodeChanged) ==> r.1 == Raised(PuppetError)
  {
    var mode := ShouldOf(st.shoulds);
    if mode == NotFound then (st, NoEvent, None)
    else if mode.Int? && chmodSucceeds then (st, Event(InodeChanged), Some(mode))
    else (st, Raised(PuppetError), Some(mode))
  }

  /** sync. The third component is the mode File.chmod was called with, if it
      was called. A property whose `is` is :notfound retrieves once more and
      stops, without chmod, when the file is still missing or now in sync. */
  function SyncSpec(st: ModeState, env: FileEnv, chmodSucceeds: bool): (r: (ModeState, SyncOutcome, Option<RValue>))
    ensures r.0.fixed == st.fixed
    ensures st.actual != NotFound ==> r == ChmodStep(st, chmodSucceeds)
    ensures st.actual == NotFound && env.stat.None? ==> r == (st, NoEvent, None)
    ensures st.actual == NotFound && RetrieveSpec(st, env).1.Fail? ==>
              r == (RetrieveSpec(st, env).0, Raised(NoMethodError), None)
    ensures st.actual == NotFound && RetrieveSpec(st, env).1 == Pass ==> r.0 == RetrieveSpec(st, env).0
    ensures (st.actual == NotFound && RetrieveSpec(st, env).1 == Pass &&
             r.0.actual != NotFound && InSync(r.0.actual, r.0.shoulds)) ==> r.1 == NoEvent && r.2.None?
    ensures var (st1, o) := RetrieveSpec(st, env);
            st.actual == NotFound && o == Pass && st1.actual != NotFound && !InSync(st1.actual, st1.shoulds) ==>
              r == ChmodStep(st1, chmodSucceeds)
    ensures r.2.Some? ==> r.2.value == ShouldOf(r.0.shoulds) && r.2.value != NotFound
    ensures r.1.Event? ==> r.1.name == InodeChanged && r.2.Some? && r.2.value.Int?
  {
    if st.actual == NotFound then
      var (st1, o) := RetrieveSpec(st, env);
      if o.Fail? then (st1, Raised(o.error), None)
      else if st1.actual == NotFound then (st1, NoEvent, None)
      else if InSync(st1.actual, st1.shoulds) then (st1, NoEvent, None)
      else ChmodStep(st1, chmodSucceeds)
    else ChmodStep(st, chmodSucceeds)
  }

  /** chmod as the platform performs it: the permission bits become the mode's,
      the file type bits stay. */
  function AfterChmod(env: FileEnv, mode: int): (r: FileEnv)
    requires env.stat.Some?
    ensures r.stat.Some? && r.stat.value.mode % 0x1000 == mode % 0x1000
    ensures r.stat.value.mode / 0x1000 == env.stat.value.mode / 0x1000
    ensures r.stat.value.(mode := env.stat.value.mode) == env.stat.value && r.(stat := env.stat) == env
  {
    var m := env.stat.value.mode;
    SplitAt12(m / 0x1000, mode % 0x1000);
    env.(stat := Some(env.stat.value.(mode := m - m % (PermissionMask + 1) + mode % (PermissionMask + 1))))
  }

  /** A change converges: after retrieve, a sync that chmods a desired mode
      within 07777 leaves the file so that the next retrieve finds it in sync,
      and the reconciliation cycle then skips sync. */
  lemma ModeConverges(st: ModeState, env: FileEnv)
    requires env.stat.Some? && RetrieveSpec(st, env).1 == Pass
    requires var desired := ShouldOf(RetrieveSpec(st, env).0.shoulds);
             desired.Int? && 0 <= desired.i <= PermissionMask
    ensures var st1 := RetrieveSpec(st, env).0;
            var synced := SyncSpec(st1, env, true);
            synced.1 == Event(InodeChanged) && synced.2 == Some(ShouldOf(st1.shoulds)) &&
            var again := RetrieveSpec(synced.0, AfterChmod(env, synced.2.value.i));
            again.1 == Pass && InSync(again.0.actual, again.0.shoulds)
  {
    var st1 := RetrieveSpec(st, env).0;
    var desired := ShouldOf(st1.shoulds);
    assert st1.actual != NotFound;
    var synced := SyncSpec(st1, env, true);
    assert synced == (st1, Event(InodeChanged), Some(desired));
    var env2 := AfterChmod(env, desired.i);
    var m := env.stat.value.mode;
    assert (m - m % 0x1000 + desired.i % 0x1000) % 0x1000 == desired.i;
    RetrieveTwice(st, env);
    if !st1.fixed {
      MaskAllIdempotent(st.shoulds, env.isDirectory);
    }
    var again := RetrieveSpec(st1, env2);
    assert again.0 == st1.(actual := desired);
  }

  /** A desired "644" on a file that does not exist: retrieve records
      :notfound without raising, and sync does nothing and raises nothing. */
  lemma MissingFileIsNoop(env: FileEnv, chmodSucceeds: bool)
    requires env.stat.None?
    ensures ShouldProcess(Str("644")) == Ok(Int(420))
    ensures var st := RetrieveSpec(ModeState(Nil, [Int(420)], false), env);
            st.1 == Pass && st.0.actual == NotFound &&
            SyncSpec(st.0, env, chmodSucceeds) == (st.0, NoEvent, None)
  {
    ShouldProcess644();
  }

  // ---------------------------------------------------------------------------
  // The property object

  class ModeProperty {
    var actual: RValue
    var shoulds: seq<RValue>
    var fixed: bool

    function State(): ModeState
      reads this
    {
      ModeState(actual, shoulds, fixed)
    }

    /** A property with the given (already normalized) desired values, not yet retrieved. */
    constructor (desired: seq<RValue>)
      ensures State() == ModeState(Nil, desired, false)
    {
      actual := Nil;
      shoulds := desired;
      fixed := false;
    }

    function IsToS(): (r: Result<RValue>)
      reads this
      ensures actual.Int? && actual.i >= 0 ==> r.Ok? && ShouldProcess(r.value) == Ok(actual)
      ensures actual.Sym? ==> r == Ok(actual)
      ensures actual.Int? ==> r == Render(actual)
      ensures actual.Int? && actual.i < 0 ==> r.Ok? && ShouldProcess(r.value) == Err(PuppetError)
      ensures !(actual.Int? || actual.Sym?) ==> r == Err(DevError)
    {
      if actual.Int? && actual.i >= 0 then RenderRoundTrip(actual.i); Render(actual)
      else if actual.Int? then RenderNegativeRejected(actual.i); Render(actual)
      else Render(actual)
    }

    function ShouldToS(): (r: Result<RValue>)
      reads this
      ensures var should := ShouldOf(shoulds);
              should.Int? && should.i >= 0 ==> r.Ok? && ShouldProcess(r.value) == Ok(should)
      ensures ShouldOf(shoulds).Sym? ==> r == Ok(ShouldOf(shoulds))
      ensures ShouldOf(shoulds).Int? ==> r == Render(ShouldOf(shoulds))
      ensures var should := ShouldOf(shoulds);
              should.Int? && should.i < 0 ==> r.Ok? && ShouldProcess(r.value) == Err(PuppetError)
      ensures !(ShouldOf(shoulds).Int? || ShouldOf(shoulds).Sym?) ==> r == Err(DevError)
    {
      var should := ShouldOf(shoulds);
      if should.Int? && should.i >= 0 then RenderRoundTrip(should.i); Render(should)
      else if should.Int? then RenderNegativeRejected(should.i); Render(should)
      else Render(should)
    }

    method Retrieve(env: FileEnv) returns (o: Outcome)
      modifies this
      ensures (State(), o) == RetrieveSpec(old(State()), env)
    {
      o := Pass;
      if env.stat.None? {
        actual := NotFound;
        return;
      }
      actual := Int(env.stat.value.mode % (PermissionMask + 1));
      if !fixed {
        var masked: seq<RValue> := [];
        var k := 0;
        while k < |shoulds|
          invariant 0 <= k <= |shoulds| && |masked| == k
          invariant forall j | 0 <= j < k :: DirMask(shoulds[j], env.isDirectory) == Ok(masked[j])
        {
          var m := DirMask(shoulds[k], env.isDirectory);
          if m.Err? {
            o := Fail(m.error);
            return;
          }
          masked := masked + [m.value];
          k := k + 1;
        }
        assert masked == MaskAll(shoulds, env.isDirectory).value;
        shoulds := masked;
      }
    }

    method Sync(env: FileEnv, chmodSucceeds: bool) returns (r: SyncOutcome, chmod: Option<RValue>)
      modifies this
      ensures (State(), r, chmod) == SyncSpec(old(State()), env, chmodSucceeds)
    {
      if actual == NotFound {
        var o := Retrieve(env);
        if o.Fail? {
          return Raised(o.error), None;
        }
        if actual == NotFound {
          return NoEvent, None;
        }
        if InSync(actual, shoulds) {
          return NoEvent, None;
        }
      }
      var mode := ShouldOf(shoulds);
      if mode == NotFound {
        return NoEvent, None;
      }
      chmod := Some(mode);
      if mode.Int? && chmodSucceeds {
        r := Event(InodeChanged);
      } else {
        r := Raised(PuppetError);
      }
    }
  }
}
