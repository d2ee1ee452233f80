/** The fixed-size Bloom filter of retired reconnect ids, and the two-file load that merges it. */
module SlotFilter {
  import opened Prelude
  import opened SlotModel

  const FILTER_WORDS: nat := 512

  /** Word index and bit mask of one digest word taken modulo 512 * 64. */
  function WordIndex(w: bv32): (i: nat)
    ensures i < FILTER_WORDS
  {
    ((w & 0x7fff) >> 6) as nat
  }

  function BitMask(w: bv32): (m: bv64)
    ensures m != 0
  {
    (1 as bv64) << (w & 0x3f)
  }

  predicate BitSet(filter: seq<bv64>, w: bv32)
    requires |filter| == FILTER_WORDS
  {
    filter[WordIndex(w)] & BitMask(w) != 0
  }

  predicate AllSet(filter: seq<bv64>, words: seq<bv32>)
    requires |filter| == FILTER_WORDS
  {
    forall i :: 0 <= i < |words| ==> BitSet(filter, words[i])
  }

  /** `reconnect_operation_id_is_retired`. */
  predicate IsRetired(env: Env, filter: seq<bv64>, id: string)
    requires FilterShape(filter)
  {
    filter != [] && AllSet(filter, env.digest(id).Words())
  }

  function Or(a: bv64, b: bv64): bv64 {
    a | b
  }

  function SetBit(filter: seq<bv64>, w: bv32): (r: seq<bv64>)
    requires |filter| == FILTER_WORDS
    ensures |r| == FILTER_WORDS
  {
    filter[WordIndex(w) := Or(filter[WordIndex(w)], BitMask(w))]
  }

  function SetBits(filter: seq<bv64>, words: seq<bv32>): (r: seq<bv64>)
    requires |filter| == FILTER_WORDS
    ensures |r| == FILTER_WORDS
    decreases words
  {
    if words == [] then filter
    else SetBits(SetBit(filter, words[0]), words[1..])
  }

  /** `retire_reconnect_operation_id`. */
  function Retire(env: Env, filter: seq<bv64>, id: string): (r: seq<bv64>)
    requires FilterShape(filter)
    ensures |r| == FILTER_WORDS
  {
    SetBits(if filter == [] then seq(FILTER_WORDS, _ => 0) else filter, env.digest(id).Words())
  }

  /** Every bit of word `a` is a bit of word `b`. */
  predicate Sub(a: bv64, b: bv64) {
    a & b == a
  }

  /** Every bit of `f` is a bit of `g`. */
  predicate Covers(f: seq<bv64>, g: seq<bv64>)
    requires FilterShape(f) && FilterShape(g)
  {
    f == [] || (g != [] && forall i :: 0 <= i < |f| ==> Sub(f[i], g[i]))
  }

  lemma OrKeeps(a: bv64, b: bv64)
    ensures Sub(a, Or(a, b)) && Sub(a, a)
  {}

  lemma AndTransitive(a: bv64, b: bv64, c: bv64)
    requires Sub(a, b) && Sub(b, c)
    ensures Sub(a, c)
  {}

  lemma SubMask(a: bv64, b: bv64, m: bv64)
    requires Sub(a, b) && a & m != 0
    ensures b & m != 0
  {}

  lemma OrHitsMask(a: bv64, m: bv64)
    requires m != 0
    ensures Or(a, m) & m != 0
  {}

  lemma OrAbsorbs(a: bv64, b: bv64)
    requires Sub(a, b)
    ensures Or(a, b) == b
  {}

  lemma CoversReflexive(f: seq<bv64>)
    requires FilterShape(f)
    ensures Covers(f, f)
  {
    forall i | 0 <= i < |f| ensures Sub(f[i], f[i]) { OrKeeps(f[i], f[i]); }
  }

  lemma CoversTransitive(f: seq<bv64>, g: seq<bv64>, h: seq<bv64>)
    requires FilterShape(f) && FilterShape(g) && FilterShape(h)
    requires Covers(f, g) && Covers(g, h)
    ensures Covers(f, h)
  {
    if f != [] {
      forall i | 0 <= i < |f| ensures Sub(f[i], h[i]) { AndTransitive(f[i], g[i], h[i]); }
    }
  }

  /** A retired id stays retired in every filter that has at least those bits. */
  lemma CoversKeepsRetired(env: Env, f: seq<bv64>, g: seq<bv64>, id: string)
    requires FilterShape(f) && FilterShape(g) && Covers(f, g)
    requires IsRetired(env, f, id)
    ensures IsRetired(env, g, id)
  {
    var ws := env.digest(id).Words();
    forall i | 0 <= i < |ws| ensures BitSet(g, ws[i]) {
      assert BitSet(f, ws[i]);
      CoversKeepsBit(f, g, ws[i]);
    }
  }

  lemma SetBitCorrect(filter: seq<bv64>, w: bv32)
    requires |filter| == FILTER_WORDS
    ensures Covers(filter, SetBit(filter, w)) && BitSet(SetBit(filter, w), w)
  {
    var next := SetBit(filter, w);
    OrHitsMask(filter[WordIndex(w)], BitMask(w));
    forall i | 0 <= i < |filter| ensures Sub(filter[i], next[i]) {
      OrKeeps(filter[i], BitMask(w));
    }
  }

  lemma CoversKeepsBit(f: seq<bv64>, g: seq<bv64>, w: bv32)
    requires |f| == |g| == FILTER_WORDS && Covers(f, g) && BitSet(f, w)
    ensures BitSet(g, w)
  {
    SubMask(f[WordIndex(w)], g[WordIndex(w)], BitMask(w));
  }

  lemma {:induction false} SetBitsCorrect(filter: seq<bv64>, words: seq<bv32>)
    requires |filter| == FILTER_WORDS
    ensures Covers(filter, SetBits(filter, words))
    ensures AllSet(SetBits(filter, words), words)
    decreases words
  {
    if words == [] {
      CoversReflexive(filter);
    } else {
      var next := SetBit(filter, words[0]);
      var r := SetBits(next, words[1..]);
      SetBitCorrect(filter, words[0]);
      SetBitsCorrect(next, words[1..]);
      CoversTransitive(filter, next, r);
      CoversKeepsBit(next, r, words[0]);
      forall i | 0 <= i < |words| ensures BitSet(r, words[i]) {
        if i > 0 { assert words[i] == words[1..][i - 1]; }
      }
    }
  }

  /** Retiring an id makes it test as retired and forgets no other id. */
  lemma RetireCorrect(env: Env, filter: seq<bv64>, id: string)
    requires FilterShape(filter)
    ensures IsRetired(env, Retire(env, filter, id), id)
    ensures Covers(filter, Retire(env, filter, id))
    ensures forall other :: IsRetired(env, filter, other) ==> IsRetired(env, Retire(env, filter, id), other)
  {
    var start := if filter == [] then seq(FILTER_WORDS, _ => 0 as bv64) else filter;
    SetBitsCorrect(start, env.digest(id).Words());
    forall other | IsRetired(env, filter, other) ensures IsRetired(env, Retire(env, filter, id), other) {
      CoversKeepsRetired(env, filter, Retire(env, filter, id), other);
    }
  }

  // ---- the filter as a set of bits

  function Meet(a: bv64, b: bv64): bv64 {
    a & b
  }

  function Word(bit: bv32): nat {
    (bit / 64) as nat
  }

  function Shift(i: bv32): bv64
    requires i < 64
  {
    (1 as bv64) << i
  }

  function Mask(bit: bv32): bv64 {
    BelowWord(bit);
    Shift(bit % 64)
  }

  /** The bit of this number is set: bit `n` is bit `n % 64` of word `n / 64`. */
  predicate HasBit(filter: seq<bv64>, bit: bv32)
    requires FilterShape(filter) && bit < 32768
  {
    Word(bit) < |filter| && Meet(filter[Word(bit)], Mask(bit)) != 0
  }

  function BitNumber(w: bv32): (n: bv32)
    ensures n < 32768
  {
    Residue(w);
    w % 32768
  }

  predicate AmongBits(words: seq<bv32>, bit: bv32) {
    exists i :: 0 <= i < |words| && BitNumber(words[i]) == bit
  }

  /** One of the eight words of the id's digest, modulo the size of the filter, is this bit. */
  predicate BitOf(env: Env, id: string, bit: bv32) {
    var d := env.digest(id);
    AmongBits([d.w0, d.w1, d.w2, d.w3, d.w4, d.w5, d.w6, d.w7], bit)
  }

  lemma Residue(w: bv32)
    ensures w % 32768 < 32768
    ensures (w & 0x7fff) >> 6 == (w % 32768) / 64 && w & 0x3f == (w % 32768) % 64
  {
  }

  lemma SameNumber(a: bv32, b: bv32)
    requires a / 64 == b / 64
    ensures a % 64 == b % 64 <==> a == b
  {
  }

  lemma BelowWord(bit: bv32)
    ensures bit % 64 < 64
    ensures bit < 32768 ==> bit / 64 < 512
  {
  }

  lemma WordBack(w: bv32)
    ensures (w as nat) as bv32 == w
    ensures w < 512 ==> w as nat < 512
  {
  }

  lemma OneMask(i: bv32, j: bv32)
    requires i < 64 && j < 64
    ensures ((1 as bv64) << i) & ((1 as bv64) << j) != 0 <==> i == j
  {
  }

  lemma ShiftIs(i: bv32)
    requires i < 64
    ensures Shift(i) == (1 as bv64) << i
  {
  }

  lemma ShiftMeet(i: bv32, j: bv32)
    requires i < 64 && j < 64
    ensures Meet(Shift(i), Shift(j)) != 0 <==> i == j
  {
    hide *;
    OneMask(i, j);
    ShiftIs(i);
    ShiftIs(j);
    MeetIs((1 as bv64) << i, (1 as bv64) << j);
  }

  lemma DistributeBits(a: bv64, m: bv64, n: bv64)
    ensures (a | m) & n == (a & n) | (m & n)
  {
  }

  lemma ZeroBits(a: bv64, b: bv64)
    ensures a | b == 0 <==> a == 0 && b == 0
  {
  }

  lemma OrIs(a: bv64, b: bv64)
    ensures Or(a, b) == a | b
  {
  }

  lemma MeetIs(a: bv64, b: bv64)
    ensures Meet(a, b) == a & b
  {
  }

  lemma MaskIs(bit: bv32)
    ensures bit % 64 < 64 && Mask(bit) == Shift(bit % 64)
  {
  }

  lemma WordIs(bit: bv32)
    ensures Word(bit) == (bit / 64) as nat
  {
  }

  lemma Distribute(a: bv64, m: bv64, n: bv64)
    ensures Meet(Or(a, m), n) == Or(Meet(a, n), Meet(m, n))
  {
    hide *;
    OrIs(a, m);
    MeetIs(a | m, n);
    MeetIs(a, n);
    MeetIs(m, n);
    OrIs(a & n, m & n);
    DistributeBits(a, m, n);
  }

  lemma ZeroIs(a: bv64, b: bv64)
    ensures Or(a, b) == 0 <==> a == 0 && b == 0
  {
    hide *;
    OrIs(a, b);
    ZeroBits(a, b);
  }

  lemma MeetOr(a: bv64, m: bv64, n: bv64)
    ensures Meet(Or(a, m), n) != 0 <==> Meet(a, n) != 0 || Meet(m, n) != 0
  {
    hide *;
    Distribute(a, m, n);
    ZeroIs(Meet(a, n), Meet(m, n));
  }

  lemma SameWord(x: bv32, y: bv32)
    requires Word(x) == Word(y)
    ensures x / 64 == y / 64
  {
    hide *;
    WordIs(x);
    WordIs(y);
    WordBack(x / 64);
    WordBack(y / 64);
  }

  lemma MasksMeet(x: bv32, y: bv32)
    requires Word(x) == Word(y)
    ensures Meet(Mask(x), Mask(y)) != 0 <==> x == y
  {
    hide *;
    SameWord(x, y);
    MaskIs(x);
    MaskIs(y);
    ShiftMeet(x % 64, y % 64);
    SameNumber(x, y);
  }

  lemma WordBelow(bit: bv32)
    requires bit < 32768
    ensures Word(bit) < FILTER_WORDS
  {
    hide *;
    WordIs(bit);
    BelowWord(bit);
    WordBack(bit / 64);
    WordCount();
  }

  lemma WordCount()
    ensures FILTER_WORDS == 512
  {
  }

  lemma IndexIs(w: bv32)
    ensures w & 0x3f < 64 && WordIndex(w) == ((w & 0x7fff) >> 6) as nat && BitMask(w) == Shift(w & 0x3f)
  {
  }

  /** The place of a digest word is that of its residue. */
  lemma NumberIs(w: bv32)
    ensures BitNumber(w) == w % 32768
  {
  }

  lemma PlaceOf(w: bv32)
    ensures WordIndex(w) == Word(BitNumber(w)) && BitMask(w) == Mask(BitNumber(w))
  {
    hide *;
    NumberIs(w);
    Residue(w);
    IndexIs(w);
    WordIs(w % 32768);
    MaskIs(w % 32768);
  }

  lemma SetBitExact(filter: seq<bv64>, w: bv32, bit: bv32)
    requires |filter| == FILTER_WORDS && bit < 32768
    ensures HasBit(SetBit(filter, w), bit) <==> HasBit(filter, bit) || bit == BitNumber(w)
  {
    hide Or, Meet, Mask, Word, BitMask, WordIndex, BitNumber;
    var p := BitNumber(w);
    PlaceOf(w);
    WordBelow(bit);
    MeetOr(filter[WordIndex(w)], Mask(p), Mask(bit));
    if Word(p) == Word(bit) { MasksMeet(p, bit); }
  }

  lemma SetIs(filter: seq<bv64>, w: bv32)
    requires |filter| == FILTER_WORDS
    ensures BitSet(filter, w) <==> Meet(filter[WordIndex(w)], BitMask(w)) != 0
  {
    hide *;
    SetMeans(filter, w);
    MeetIs(filter[WordIndex(w)], BitMask(w));
  }

  lemma SetMeans(filter: seq<bv64>, w: bv32)
    requires |filter| == FILTER_WORDS
    ensures BitSet(filter, w) <==> filter[WordIndex(w)] & BitMask(w) != 0
  {
    hide WordIndex, BitMask;
  }

  lemma BitIs(filter: seq<bv64>, w: bv32)
    requires |filter| == FILTER_WORDS
    ensures BitSet(filter, w) <==> HasBit(filter, BitNumber(w))
  {
    hide Mask, Word, BitMask, WordIndex, Meet, BitSet, BitNumber;
    SetIs(filter, w);
    PlaceOf(w);
  }

  lemma {:induction false} SetBitsExact(filter: seq<bv64>, words: seq<bv32>, bit: bv32)
    requires |filter| == FILTER_WORDS && bit < 32768
    ensures HasBit(SetBits(filter, words), bit) <==> HasBit(filter, bit) || AmongBits(words, bit)
    decreases words
  {
    hide HasBit, SetBit, BitNumber;
    if words != [] {
      SetBitsExact(SetBit(filter, words[0]), words[1..], bit);
      SetBitExact(filter, words[0], bit);
      if AmongBits(words[1..], bit) {
        var i :| 0 <= i < |words[1..]| && BitNumber(words[1..][i]) == bit;
        assert words[i + 1] == words[1..][i];
      }
      if i: nat :| i < |words| && BitNumber(words[i]) == bit {
        if i > 0 { assert words[1..][i - 1] == words[i]; }
      }
    }
  }

  /** Retiring an id sets its eight bits and no other. */
  lemma RetireExact(env: Env, filter: seq<bv64>, id: string, bit: bv32)
    requires FilterShape(filter) && bit < 32768
    ensures HasBit(Retire(env, filter, id), bit) <==> HasBit(filter, bit) || BitOf(env, id, bit)
  {
    hide AmongBits, HasBit, SetBits;
    var start := if filter == [] then seq(FILTER_WORDS, _ => 0 as bv64) else filter;
    SetBitsExact(start, env.digest(id).Words(), bit);
    NoBit(bit);
  }

  lemma NoBit(bit: bv32)
    requires bit < 32768
    ensures !HasBit(seq(FILTER_WORDS, _ => 0 as bv64), bit) && !HasBit([], bit)
  {
    hide Word, Mask, Meet;
    MeetIs(0, Mask(bit));
  }

  /** An id tests as retired if and only if its eight bits are set. */
  lemma RetiredIs(env: Env, filter: seq<bv64>, id: string)
    requires FilterShape(filter)
    ensures IsRetired(env, filter, id) <==> forall bit :: bit < 32768 && BitOf(env, id, bit) ==> HasBit(filter, bit)
  {
    hide HasBit, BitSet, BitNumber;
    var ws := env.digest(id).Words();
    forall i | 0 <= i < |ws| ensures BitOf(env, id, BitNumber(ws[i])) {}
    if filter == [] {
      NoBit(BitNumber(ws[0]));
    } else {
      forall i | 0 <= i < |ws| ensures BitSet(filter, ws[i]) <==> HasBit(filter, BitNumber(ws[i])) {
        BitIs(filter, ws[i]);
      }
      if IsRetired(env, filter, id) {
        forall bit | bit < 32768 && BitOf(env, id, bit) ensures HasBit(filter, bit) {
          var i :| 0 <= i < |ws| && BitNumber(ws[i]) == bit;
          assert BitSet(filter, ws[i]);
        }
      }
    }
  }

  // ---- loading the two files

  function MergeFilters(f: seq<bv64>, side: seq<bv64>): (r: seq<bv64>)
    requires FilterShape(f) && |side| == FILTER_WORDS
    ensures |r| == FILTER_WORDS
  {
    if f == [] then side else seq(FILTER_WORDS, i requires 0 <= i < FILTER_WORDS => Or(f[i], side[i]))
  }

  /** `load_persisted`: default, schema migration, sidecar merge, validation, in that order. */
  function Load(env: Env, d: Disk): (r: Loaded) {
    var raw := if d.main.Some? then d.main.value else DEFAULT_SETTINGS;
    if raw.schema != 1 && raw.schema != PERSISTED_SCHEMA then Failed(Invalid)
    else if d.sidecar.Some? && |d.sidecar.value| != FILTER_WORDS then Failed(BadState)
    else if !FilterShape(raw.filter) then Failed(Invalid)
    else
      var merged := if d.sidecar.Some? then MergeFilters(raw.filter, d.sidecar.value) else raw.filter;
      var s := raw.(schema := PERSISTED_SCHEMA, filter := merged);
      if Valid(env, s) then Ok(s) else Failed(Invalid)
  }

  /** The sidecar is written first, and only when there is a filter. */
  function AfterSidecar(d: Disk, s: Settings): Disk {
    if s.filter == [] then d else d.(sidecar := Some(s.filter))
  }

  function AfterSave(d: Disk, s: Settings): Disk {
    AfterSidecar(d, s).(main := Some(s))
  }

  /** What every reachable disk satisfies: it loads, and the sidecar holds every bit of the main file. */
  predicate Sound(env: Env, d: Disk) {
    && Load(env, d).Ok?
    && (d.main.Some? ==> FilterShape(d.main.value.filter))
    && (d.sidecar.Some? ==> |d.sidecar.value| == FILTER_WORDS)
    && (d.main.Some? && d.main.value.filter != [] ==>
          d.sidecar.Some? && Covers(d.main.value.filter, d.sidecar.value))
  }

  function View(env: Env, d: Disk): (s: Settings)
    requires Sound(env, d)
    ensures Valid(env, s)
  {
    Load(env, d).settings
  }

  /** The merged filter holds the bits of both files. */
  lemma MergeExact(f: seq<bv64>, side: seq<bv64>, bit: bv32)
    requires FilterShape(f) && |side| == FILTER_WORDS && bit < 32768
    ensures HasBit(MergeFilters(f, side), bit) <==> HasBit(f, bit) || HasBit(side, bit)
  {
    hide Or, Meet, Mask, Word;
    WordBelow(bit);
    if f != [] {
      MeetOr(f[Word(bit)], side[Word(bit)], Mask(bit));
      MeetIs(f[Word(bit)], Mask(bit));
    } else {
      NoBit(bit);
    }
  }

  lemma MergeAbsorbed(f: seq<bv64>, side: seq<bv64>)
    requires FilterShape(f) && |side| == FILTER_WORDS && Covers(f, side)
    ensures MergeFilters(f, side) == side
  {
    if f != [] {
      forall i | 0 <= i < FILTER_WORDS ensures Or(f[i], side[i]) == side[i] { OrAbsorbs(f[i], side[i]); }
    }
  }

  /** On a sound disk the loaded filter is the sidecar. */
  lemma ViewFilter(env: Env, d: Disk)
    requires Sound(env, d)
    ensures d.sidecar.Some? ==> View(env, d).filter == d.sidecar.value
    ensures d.sidecar.None? ==> View(env, d).filter == []
  {
    if d.main.Some? && d.sidecar.Some? {
      MergeAbsorbed(d.main.value.filter, d.sidecar.value);
    }
  }

  /** A completed save is read back exactly. */
  lemma SaveReadsBack(env: Env, d: Disk, t: Settings)
    requires Sound(env, d) && Valid(env, t)
    requires Covers(View(env, d).filter, t.filter)
    ensures Sound(env, AfterSave(d, t))
    ensures View(env, AfterSave(d, t)) == t
  {
    ViewFilter(env, d);
    if t.filter != [] {
      CoversReflexive(t.filter);
      MergeAbsorbed(t.filter, t.filter);
    }
    assert t.(schema := PERSISTED_SCHEMA, filter := t.filter) == t;
  }

  /** A crash between the two writes leaves the old settings with the new filter. */
  lemma HalfSaveReadsBack(env: Env, d: Disk, t: Settings)
    requires Sound(env, d) && Valid(env, t)
    requires Covers(View(env, d).filter, t.filter)
    ensures Sound(env, AfterSidecar(d, t))
    ensures View(env, AfterSidecar(d, t)) == View(env, d).(filter := t.filter)
  {
    ViewFilter(env, d);
    if t.filter != [] {
      var s := View(env, d);
      if d.main.Some? {
        if d.main.value.filter != [] {
          CoversTransitive(d.main.value.filter, d.sidecar.value, t.filter);
        }
        MergeAbsorbed(d.main.value.filter, t.filter);
      }
      ValidAnyFilter(env, s, t.filter);
    }
  }

  lemma ValidFilter(env: Env, s: Settings)
    requires Valid(env, s)
    ensures FilterShape(s.filter)
  {
  }

  lemma ValidAnyFilter(env: Env, s: Settings, filter: seq<bv64>)
    requires Valid(env, s) && FilterShape(filter)
    ensures Valid(env, s.(filter := filter))
  {
    assert Rows(s.(filter := filter)) == Rows(s);
  }
}
