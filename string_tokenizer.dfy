/** The cursor-based tokenizer of src/string_tokenizer.c over the
    `struct StringTokenizer` of include/strutils.h.

    The buffer is a byte array. In read mode it holds `length` bytes of text
    followed by the NUL that ends the caller's string; the scanning
    operations stop at that NUL. The write operations overwrite the buffer at
    the cursor and grow it with `realloc`, which leaves the new bytes
    uninitialised and gives no room for a terminator. */
module StringTokenizer {
  import opened CRuntime
  import opened StrUtils

  /** The whitespace test of `st_next_token`: a `char` up to 32. That is
      space and the control characters, and, because `char` is signed, also
      every byte from 0x80 on. */
  function IsBlank(c: Byte): (r: bool)
    ensures r <==> c as int <= 32 || c as int >= 128
  {
    SignedChar(c) <= 32
  }

  /** Where the whitespace scan that starts at `p` stops: the first index
      from `p` on that is past `length` or holds a byte that is not blank. */
  function SkipBlanks(b: seq<Byte>, length: nat, p: nat): (q: nat)
    requires length < |b|
    ensures p <= q
    ensures q > p ==> q <= length + 1
    ensures forall k :: p <= k < q ==> IsBlank(b[k])
    ensures q > length || !IsBlank(b[q])
    decreases length + 1 - p
  {
    if p > length || !IsBlank(b[p]) then p else SkipBlanks(b, length, p + 1)
  }

  /** Where the scan of `st_sub_string` that starts at `p` stops: the first
      index from `p` on that holds `endDelim` or NUL. */
  function DelimEnd(b: seq<Byte>, length: nat, p: nat, endDelim: Byte): (q: nat)
    requires p <= length < |b| && b[length] == NUL
    ensures p <= q <= length
    ensures b[q] == NUL || b[q] == endDelim
    ensures forall k :: p <= k < q ==> b[k] != NUL && b[k] != endDelim
    decreases length - p
  {
    if b[p] == NUL || b[p] == endDelim then p else DelimEnd(b, length, p + 1, endDelim)
  }

  /** The loop condition of `st_extract_numbers`. */
  predicate InNumericRun(c: Byte) { c != NUL && IsNumeric(c) == 1 }

  /** The length of the run of numeric bytes that starts at `p`. */
  function NumericRun(b: seq<Byte>, length: nat, p: nat): (n: nat)
    requires p <= length < |b| && b[length] == NUL
    ensures p + n <= length
    ensures forall k :: p <= k < p + n ==> InNumericRun(b[k])
    ensures !InNumericRun(b[p + n])
    decreases length - p
  {
    if !InNumericRun(b[p]) then 0 else 1 + NumericRun(b, length, p + 1)
  }

  /** Whether the `|needle|` bytes from `p` on lie within the first `length`
      bytes and spell `needle`. */
  function MatchesAt(b: seq<Byte>, length: nat, p: nat, needle: seq<Byte>): (r: bool)
    requires length <= |b|
    ensures r <==> p + |needle| <= length && forall k :: 0 <= k < |needle| ==> b[p + k] == needle[k]
  {
    p + |needle| <= length && b[p..p + |needle|] == needle
  }

  /** What `st_append_quoted_string` writes. */
  function Quoted(s: seq<Byte>): seq<Byte> { ['"'] + s + ['"'] }

  /** The guard of `st_expand_string`: `position + size` (a `size_t` sum)
      is below `length`, and the buffer is left as it is. */
  predicate HasRoom(position: SizeT, length: SizeT, size: SizeT)
  {
    SizeAdd(position, size) < length
  }

  /** Whether `st_expand_string(size)` returns 1 in the given state: the
      guard finds room, or the `realloc` to `length + max(size, inc)` bytes
      succeeds. */
  predicate ExpandOk(position: SizeT, length: SizeT, inc: SizeT, size: SizeT, allocOk: bool)
  {
    || HasRoom(position, length, size)
    || (allocOk && 0 < SizeAdd(length, Max(size, inc)) <= MAX_OBJECT)
  }

  /** `length` after a successful `st_expand_string(size)`. */
  function GrownLength(position: SizeT, length: SizeT, inc: SizeT, size: SizeT): SizeT
  {
    if HasRoom(position, length, size) then length else SizeAdd(length, Max(size, inc))
  }

  /** `incremental_factor` after a successful `st_expand_string(size)`. */
  function GrownInc(position: SizeT, length: SizeT, inc: SizeT, size: SizeT): SizeT
  {
    if HasRoom(position, length, size) then inc else Max(size, inc)
  }

  /** Without wrap-around the guard is the plain comparison
      `position + size < length`, and a successful expansion never shrinks
      the text nor the step and leaves room for `size` bytes at the cursor:
      with room nothing changes, otherwise the step becomes at least `size`.
      Without a working `realloc` only the guard can succeed. */
  lemma ExpandFacts(position: SizeT, length: SizeT, inc: SizeT, size: SizeT, allocOk: bool)
    requires position <= length && length + Max(size, inc) < SIZE_MODULUS
    ensures HasRoom(position, length, size) <==> position + size < length
    ensures HasRoom(position, length, size) ==> ExpandOk(position, length, inc, size, allocOk)
    ensures !allocOk ==> (ExpandOk(position, length, inc, size, allocOk) <==> HasRoom(position, length, size))
    ensures GrownLength(position, length, inc, size) >= length
    ensures GrownInc(position, length, inc, size) >= inc
    ensures !HasRoom(position, length, size) ==> GrownInc(position, length, inc, size) >= size
    ensures position + size <= GrownLength(position, length, inc, size)
  {
  }

  /** The guard's sum wraps: with `size` at SIZE_MAX, a cursor at 1 in a
      text of length 1 passes the guard although `position + size` is far
      beyond `length`, so no growth happens. */
  lemma ExpandGuardWraps()
    ensures HasRoom(1, 1, SIZE_MAX as SizeT)
  {
  }

  /** The guard is strict: whenever the bytes to write exactly fill the
      text (`position + size == length`), `st_expand_string` still calls
      `realloc`, and fails when that fails. */
  lemma ExactFitNeedsRealloc(position: SizeT, length: SizeT, inc: SizeT, size: SizeT)
    requires position + size == length
    ensures !HasRoom(position, length, size) && !ExpandOk(position, length, inc, size, false)
  {
  }

  /** `after` agrees with `before` on its first `bound` bytes outside the
      range `from .. to` that has been written. */
  ghost predicate AgreeOutside(before: seq<Byte>, after: seq<Byte>, bound: nat, from: nat, to: nat)
  {
    bound <= |before| && bound <= |after|
    && forall i :: 0 <= i < bound && !(from <= i < to) ==> after[i] == before[i]
  }

  /** Two appends at adjacent ranges: the bytes outside their union are
      unchanged up to any bound below both steps' bounds, and the bytes
      they wrote follow each other. */
  lemma AppendStep(b0: seq<Byte>, b1: seq<Byte>, b2: seq<Byte>, k1: nat, k2: nat, k: nat,
                   p0: nat, p1: nat, p2: nat, w: seq<Byte>, piece: seq<Byte>)
    requires p0 <= p1 <= p2 <= |b2| && p1 <= k2 && k <= k1 && k <= k2
    requires AgreeOutside(b0, b1, k1, p0, p1) && AgreeOutside(b1, b2, k2, p1, p2)
    requires p1 <= |b1| && b1[p0..p1] == w && b2[p1..p2] == piece
    ensures AgreeOutside(b0, b2, k, p0, p2)
    ensures b2[p0..p2] == w + piece
  {
  }

  /** The prefixes of `"s"` that the appends leave behind. */
  lemma QuotedPrefixes(s: seq<Byte>)
    ensures Quoted(s)[..0] == [] && Quoted(s)[..1] == ['"']
    ensures Quoted(s)[..|s| + 1] == ['"'] + s
    ensures Quoted(s)[..|s| + 2] == Quoted(s)
  {
  }

  /** The fields of a tokenizer and the contents of its buffer at one moment. */
  datatype Snapshot = Snapshot(bytes: seq<Byte>, position: SizeT, length: SizeT, inc: SizeT)

  /** A state in which the append operations may be called: the cursor
      within the text, the text within the buffer, and no object larger
      than MAX_OBJECT. */
  ghost predicate Writable(f: Snapshot)
  {
    f.position <= f.length <= |f.bytes| && f.length <= MAX_OBJECT && f.inc <= MAX_OBJECT
  }

  /** The shape of a tokenizer during a series of appends: its fields, the
      size of its buffer, how many leading bytes of the buffer the series
      started with are still in place after every `realloc` so far
      (`kept`), and whether the series has moved to a new buffer. */
  datatype Layout = Layout(position: SizeT, length: SizeT, inc: SizeT, size: nat, kept: nat, moved: bool)

  /** The layout at the start of a series: nothing moved, every byte kept. */
  function StartLayout(f: Snapshot): Layout
  {
    Layout(f.position, f.length, f.inc, |f.bytes|, |f.bytes|, false)
  }

  /** Whether `st_append_string` of `n` bytes succeeds from layout `c`. */
  predicate AppendOk(c: Layout, n: SizeT, allocOk: bool)
  {
    ExpandOk(c.position, c.length, c.inc, n, allocOk)
  }

  /** The layout after a successful `st_append_string` of `n` bytes: with
      room, the same buffer and the cursor `n` further; otherwise a new
      buffer of `length + max(n, inc)` bytes, into which `realloc` copied
      the old bytes up to the smaller of the two sizes. The equations below
      give the two cases field by field, for the proofs of an append series;
      `AfterAppendGrows` states what they mean. */
  function AfterAppend(c: Layout, n: SizeT): (e: Layout)
    ensures e.position == SizeAdd(c.position, n)
    ensures e.length == GrownLength(c.position, c.length, c.inc, n)
    ensures e.inc == GrownInc(c.position, c.length, c.inc, n)
    ensures e.moved == (c.moved || !HasRoom(c.position, c.length, n))
    ensures e.kept <= c.kept && (c.kept <= c.size ==> e.kept <= e.size)
    ensures !HasRoom(c.position, c.length, n) ==> e.size == e.length && e.kept == Min(c.kept, e.length)
  {
    if HasRoom(c.position, c.length, n) then c.(position := SizeAdd(c.position, n))
    else
      var l := SizeAdd(c.length, Max(n, c.inc));
      Layout(SizeAdd(c.position, n), l, Max(n, c.inc), l, Min(c.kept, l), true)
  }

  /** A successful append never gains surviving bytes, and once a series
      has moved to a new buffer it stays moved. Without wrap-around, neither
      `length` nor the step shrinks, the cursor ends `n` further and within
      the text, and a growth makes the step at least `n`. */
  lemma AfterAppendGrows(c: Layout, n: SizeT)
    requires c.position <= c.length && c.length + Max(n, c.inc) < SIZE_MODULUS
    ensures var e := AfterAppend(c, n);
            && e.kept <= c.kept && (c.kept <= c.size ==> e.kept <= e.size)
            && (c.moved ==> e.moved)
            && e.length >= c.length && e.inc >= c.inc
            && e.position == c.position + n <= e.length
            && (!HasRoom(c.position, c.length, n) ==> e.inc >= n && e.size == e.length)
  {
  }

  /** The layout after `st_append_string` of `n` bytes, successful or not. */
  function AppendLayout(c: Layout, n: SizeT, allocOk: bool): Layout
  {
    if AppendOk(c, n, allocOk) then AfterAppend(c, n) else c
  }

  /** The layout after `st_append_quoted_string` of a `k`-byte string: each
      of its three appends runs only when the one before it succeeded. */
  function QuotedLayout(c: Layout, k: SizeT, allocOk1: bool, allocOk2: bool, allocOk3: bool): Layout
  {
    if !AppendOk(c, 1, allocOk1) then c
    else
      var c1 := AfterAppend(c, 1);
      if !AppendOk(c1, k, allocOk2) then c1
      else AppendLayout(AfterAppend(c1, k), 1, allocOk3)
  }

  /** How many bytes of `"s"` (with `|s| == k`) `st_append_quoted_string`
      writes from layout `c`: it stops after the first of its three
      appends whose expansion fails. */
  function QuotedProgress(c: Layout, k: SizeT, allocOk1: bool, allocOk2: bool, allocOk3: bool): (d: nat)
    ensures d == 0 || d == 1 || d == k + 1 || d == k + 2
  {
    if !AppendOk(c, 1, allocOk1) then 0
    else
      var c1 := AfterAppend(c, 1);
      if !AppendOk(c1, k, allocOk2) then 1
      else if !AppendOk(AfterAppend(c1, k), 1, allocOk3) then k + 1 else k + 2
  }

  /** `after` has the fields and the buffer size that `e` describes. */
  ghost predicate Shaped(after: Snapshot, e: Layout)
  {
    after.position == e.position && after.length == e.length && after.inc == e.inc
    && |after.bytes| == e.size
  }

  /** What `st_append_string(s)` does to the state `before`, leaving `after`
      and returning `r`: 1 exactly when the expansion succeeds; then the
      `|s|` bytes at the cursor are `s`, and the fields and the buffer size
      are those the expansion set; 0 with nothing changed. In both cases
      every byte that survived a `realloc` keeps its value outside the
      written range, and neither `length` nor `inc` decreases. */
  ghost predicate AppendEffect(before: Snapshot, after: Snapshot, s: seq<Byte>, allocOk: bool, r: int)
    requires |s| < SIZE_MODULUS
  {
    var e := AppendLayout(StartLayout(before), |s|, allocOk);
    && (r == 0 || r == 1)
    && (r == 1 <==> AppendOk(StartLayout(before), |s|, allocOk))
    && (r == 0 ==> after == before)
    && Shaped(after, e)
    && (r == 1 ==>
          && before.position + |s| == after.position <= |after.bytes|
          && after.bytes[before.position..after.position] == s)
    && after.length >= before.length && after.inc >= before.inc
    && AgreeOutside(before.bytes, after.bytes, e.kept, before.position, after.position)
  }

  /** What `st_append_quoted_string(s)` does to the state `before`: the
      fields and the buffer size are those of `QuotedLayout`, the cursor
      moves by `QuotedProgress`, the bytes it moved over are that prefix of
      `"s"`, and the result is 1 exactly when all of `"s"` was written.
      Every byte that survived the `realloc`s keeps its value outside the
      written range, and neither `length` nor `inc` decreases. */
  ghost predicate QuotedEffect(before: Snapshot, after: Snapshot, s: seq<Byte>,
                               allocOk1: bool, allocOk2: bool, allocOk3: bool, r: int)
    requires |s| < SIZE_MODULUS
  {
    var c := StartLayout(before);
    var e := QuotedLayout(c, |s|, allocOk1, allocOk2, allocOk3);
    var d := QuotedProgress(c, |s|, allocOk1, allocOk2, allocOk3);
    && (r == 0 || r == 1)
    && (r == 1 <==> d == |s| + 2)
    && Shaped(after, e)
    && before.position + d == after.position <= |after.bytes|
    && after.bytes[before.position..after.position] == Quoted(s)[..d]
    && after.length >= before.length && after.inc >= before.inc
    && AgreeOutside(before.bytes, after.bytes, e.kept, before.position, after.position)
  }

  /** A successful `st_append_string(s)` in two halves: the expansion turns
      `f0` into `g`, then the copy loop writes `s` at the cursor of `g`,
      leaving `f`. Together they have the effect `AppendEffect` states. */
  lemma AppendHalves(f0: Snapshot, g: Snapshot, f: Snapshot, s: seq<Byte>, allocOk: bool)
    requires Writable(f0) && |s| <= MAX_OBJECT
    requires AppendOk(StartLayout(f0), |s|, allocOk)
    requires g.position == f0.position
    requires g.length == GrownLength(f0.position, f0.length, f0.inc, |s|)
    requires g.inc == GrownInc(f0.position, f0.length, f0.inc, |s|)
    requires HasRoom(f0.position, f0.length, |s|) ==> g.bytes == f0.bytes
    requires !HasRoom(f0.position, f0.length, |s|) ==>
               && |g.bytes| == g.length
               && forall i :: 0 <= i < Min(|f0.bytes|, g.length) ==> g.bytes[i] == f0.bytes[i]
    requires f.length == g.length && f.inc == g.inc
    requires f.position == g.position + |s| <= g.length <= |g.bytes|
    requires f.bytes == g.bytes[..g.position] + s + g.bytes[f.position..]
    ensures AppendEffect(f0, f, s, allocOk, 1)
  {
  }

  /** One append of a series: from a state shaped like `c`, an append whose
      effect is `AppendEffect` leaves a state shaped like the next layout of
      the series, which keeps no more bytes than the append alone keeps,
      and those include everything before the cursor. */
  lemma SeriesStep(c: Layout, f1: Snapshot, f2: Snapshot, s: seq<Byte>, allocOk: bool, r: int)
    requires Writable(f1) && |s| < MAX_OBJECT
    requires Shaped(f1, c) && c.kept <= c.size
    requires AppendEffect(f1, f2, s, allocOk, r)
    ensures r == 1 <==> AppendOk(c, |s|, allocOk)
    ensures Shaped(f2, AppendLayout(c, |s|, allocOk))
    ensures AppendLayout(c, |s|, allocOk).kept <= AppendLayout(StartLayout(f1), |s|, allocOk).kept
    ensures AppendLayout(c, |s|, allocOk).kept <= c.kept
    ensures AppendLayout(c, |s|, allocOk).kept <= AppendLayout(c, |s|, allocOk).size
    ensures f1.position <= AppendLayout(StartLayout(f1), |s|, allocOk).kept
    ensures AppendLayout(c, |s|, allocOk).moved == (c.moved || AppendLayout(StartLayout(f1), |s|, allocOk).moved)
  {
  }

  /** `st_append_quoted_string` when its first append fails. */
  lemma QuotedFirstFails(f0: Snapshot, f1: Snapshot, s: seq<Byte>, allocOk1: bool, allocOk2: bool, allocOk3: bool)
    requires Writable(f0) && |s| < MAX_OBJECT
    requires AppendEffect(f0, f1, ['"'], allocOk1, 0)
    ensures QuotedEffect(f0, f1, s, allocOk1, allocOk2, allocOk3, 0)
    ensures !QuotedLayout(StartLayout(f0), |s|, allocOk1, allocOk2, allocOk3).moved
  {
  }

  /** `st_append_quoted_string` when its first append succeeds and the
      second fails: only the opening quote is written. */
  lemma QuotedSecondFails(f0: Snapshot, f1: Snapshot, f2: Snapshot, s: seq<Byte>,
                          allocOk1: bool, allocOk2: bool, allocOk3: bool)
    requires Writable(f0) && Writable(f1) && |s| < MAX_OBJECT
    requires AppendEffect(f0, f1, ['"'], allocOk1, 1)
    requires AppendEffect(f1, f2, s, allocOk2, 0)
    ensures QuotedEffect(f0, f2, s, allocOk1, allocOk2, allocOk3, 0)
    ensures QuotedLayout(StartLayout(f0), |s|, allocOk1, allocOk2, allocOk3).moved
            == !HasRoom(f0.position, f0.length, 1)
  {
  }

  /** `st_append_quoted_string` when its first two appends succeed and the
      third fails: the opening quote and `s` are written. */
  lemma QuotedThirdFails(f0: Snapshot, f1: Snapshot, f2: Snapshot, f3: Snapshot, s: seq<Byte>,
                         allocOk1: bool, allocOk2: bool, allocOk3: bool)
    requires Writable(f0) && Writable(f1) && |s| < MAX_OBJECT
    requires AppendEffect(f0, f1, ['"'], allocOk1, 1)
    requires AppendEffect(f1, f2, s, allocOk2, 1)
    requires AppendEffect(f2, f3, ['"'], allocOk3, 0)
    ensures QuotedEffect(f0, f3, s, allocOk1, allocOk2, allocOk3, 0)
    ensures QuotedLayout(StartLayout(f0), |s|, allocOk1, allocOk2, allocOk3).moved
            == (!HasRoom(f0.position, f0.length, 1) || !HasRoom(f1.position, f1.length, |s|))
  {
    QuotedPrefixes(s);
    var c1 := AfterAppend(StartLayout(f0), 1);
    var c2 := AfterAppend(c1, |s|);
    SeriesStep(c1, f1, f2, s, allocOk2, 1);
    SeriesStep(c2, f2, f3, ['"'], allocOk3, 0);
    AppendStep(f0.bytes, f1.bytes, f2.bytes, c1.kept, AppendLayout(StartLayout(f1), |s|, allocOk2).kept, c2.kept,
               f0.position, f1.position, f2.position, ['"'], s);
  }

  /** `st_append_quoted_string` when all three appends succeed: all of
      `"s"` is written. */
  lemma QuotedSucceeds(f0: Snapshot, f1: Snapshot, f2: Snapshot, f3: Snapshot, s: seq<Byte>,
                       allocOk1: bool, allocOk2: bool, allocOk3: bool)
    requires Writable(f0) && Writable(f1) && Writable(f2) && |s| < MAX_OBJECT
    requires AppendEffect(f0, f1, ['"'], allocOk1, 1)
    requires AppendEffect(f1, f2, s, allocOk2, 1)
    requires AppendEffect(f2, f3, ['"'], allocOk3, 1)
    ensures QuotedEffect(f0, f3, s, allocOk1, allocOk2, allocOk3, 1)
    ensures QuotedLayout(StartLayout(f0), |s|, allocOk1, allocOk2, allocOk3).moved
            == (|| !HasRoom(f0.position, f0.length, 1)
                || !HasRoom(f1.position, f1.length, |s|)
                || !HasRoom(f2.position, f2.length, 1))
  {
    QuotedPrefixes(s);
    var c1 := AfterAppend(StartLayout(f0), 1);
    var c2 := AfterAppend(c1, |s|);
    var c3 := AfterAppend(c2, 1);
    SeriesStep(c1, f1, f2, s, allocOk2, 1);
    SeriesStep(c2, f2, f3, ['"'], allocOk3, 1);
    AppendStep(f0.bytes, f1.bytes, f2.bytes, c1.kept, AppendLayout(StartLayout(f1), |s|, allocOk2).kept, c2.kept,
               f0.position, f1.position, f2.position, ['"'], s);
    AppendStep(f0.bytes, f2.bytes, f3.bytes, c2.kept, AppendLayout(StartLayout(f2), 1, allocOk3).kept, c3.kept,
               f0.position, f2.position, f3.position, ['"'] + s, ['"']);
  }

  /** `struct StringTokenizer`. */
  class Tokenizer {
    /** `string`: the buffer; in read mode it is the caller's own array. */
    var buf: array<Byte>
    /** `length`: the number of bytes of text, or after a growth the size of the buffer. */
    var length: SizeT
    /** `position`: the cursor. It may stand past `length`, and after a failed
        numeric scan at index 0 it wraps to SIZE_MAX. */
    var position: SizeT
    /** `incremental_factor`: the last growth step. */
    var inc: SizeT

    ghost predicate Valid()
      reads this
    {
      length <= buf.Length <= MAX_OBJECT
    }

    /** The byte at index `length` lies inside the buffer. */
    ghost predicate Readable()
      reads this
    {
      length < buf.Length
    }

    /** The text is followed by its NUL terminator, as in read mode. */
    ghost predicate Terminated()
      reads this, buf
    {
      length < buf.Length && buf[length] == NUL
    }

    /** The fields and the buffer contents, as one value. */
    ghost function State(): Snapshot
      reads this, buf
    {
      Snapshot(buf[..], position, length, inc)
    }

    /** The field assignments of `st_create`. */
    constructor Init(s: array<Byte>, len: SizeT)
      ensures buf == s && length == len && position == 0 && inc == 0
    {
      buf := s;
      length := len;
      position := 0;
      inc := 0;
    }

    /** `st_create(string)`: NULL for a NULL or empty string, or when the
        `malloc` of the struct fails (`allocOk` false); otherwise a tokenizer
        that wraps the caller's array itself, without a copy, with `length`
        its `strlen`. */
    static method Create(s: array?<Byte>, allocOk: bool) returns (t: Tokenizer?)
      requires s != null ==> NUL in s[..] && s.Length <= MAX_OBJECT
      ensures t == null <==> s == null || StrLen(s[..]) == 0 || !allocOk
      ensures t != null ==> fresh(t) && t.Valid() && t.Terminated()
      ensures t != null ==> t.buf == s && t.length == StrLen(s[..])
      ensures t != null ==> t.position == 0 && t.inc == 0
    {
      if s == null {
        return null;
      }
      var length := StrLen(s[..]);
      if length == 0 {
        return null;
      }
      if !allocOk {
        return null;
      }
      t := new Tokenizer.Init(s, length);
    }

    /** `st_create_empty(size)`: a buffer of `size` spaces, wrapped by
        `st_create`, with the growth step set to `size`. The C code never
        writes the byte after the spaces, and `st_create` measures the buffer
        with `strlen`; that is defined only if the byte happens to be NUL, and
        that is what the model puts there. `bufferAllocOk` and `structAllocOk`
        are the outcomes of the two `malloc` calls. */
    static method CreateEmpty(size: SizeT, bufferAllocOk: bool, structAllocOk: bool) returns (t: Tokenizer?)
      requires size < SIZE_MAX
      ensures t == null <==> !bufferAllocOk || size + 1 > MAX_OBJECT || size == 0 || !structAllocOk
      ensures t != null ==> fresh(t) && fresh(t.buf) && t.Valid() && t.Terminated()
      ensures t != null ==> t.buf.Length == size + 1 && forall i :: 0 <= i < size ==> t.buf[i] == ' '
      ensures t != null ==> t.length == size && t.position == 0 && t.inc == size
    {
      if !bufferAllocOk || size + 1 > MAX_OBJECT {
        return null;
      }
      var s := new Byte[size + 1];
      forall i | 0 <= i < size {
        s[i] := ' ';
      }
      s[size] := NUL;
      assert s[..][size] == NUL;
      t := Create(s, structAllocOk);
      if t == null {
        return null;
      }
      t.inc := size;
    }

    /** `st_next_token`: step forward once, then on over blank bytes while
        the cursor is at most `length`. At the end of the text the cursor
        stops at `length + 1`. */
    method NextToken()
      requires Valid() && Readable()
      modifies this`position
      ensures position == SkipBlanks(buf[..], length, SizeAdd(old(position), 1))
    {
      position := SizeAdd(position, 1);
      while position <= length && IsBlank(buf[position])
        invariant SkipBlanks(buf[..], length, position) == SkipBlanks(buf[..], length, SizeAdd(old(position), 1))
        decreases length + 1 - position
      {
        position := position + 1;
      }
    }

    /** `st_current_token`: the byte under the cursor. */
    method CurrentToken() returns (c: Byte)
      requires position < buf.Length
      ensures c == buf[position]
    {
      c := buf[position];
    }

    /** `st_sub_string(startDelim, endDelim)`: NULL, with the cursor left where
        it is, unless the byte under the cursor is `startDelim`; otherwise the
        bytes strictly between it and the next `endDelim` or NUL, with the
        cursor left on that stopping byte. */
    method SubString(startDelim: Byte, endDelim: Byte) returns (r: Option<seq<Byte>>)
      requires Valid() && Terminated() && position <= length
      requires position < length || startDelim != NUL
      modifies this`position
      ensures r.None? <==> buf[old(position)] != startDelim
      ensures r.None? ==> position == old(position)
      ensures r.Some? ==> position == DelimEnd(buf[..], length, old(position) + 1, endDelim)
      ensures r.Some? ==> r.value == buf[old(position) + 1..position]
    {
      var token := buf[position];
      if token != startDelim {
        return None;
      }
      position := position + 1;
      token := buf[position];
      var start := position;
      while token != NUL && token != endDelim
        invariant start <= position <= length
        invariant token == buf[position]
        invariant DelimEnd(buf[..], length, position, endDelim) == DelimEnd(buf[..], length, start, endDelim)
        decreases length - position
      {
        position := position + 1;
        token := buf[position];
      }
      var end := position;
      var subString: seq<Byte> := [];
      var i := start;
      while i < end
        invariant start <= i <= end
        invariant subString == buf[start..i]
      {
        subString := subString + [buf[i]];
        i := i + 1;
      }
      return Some(subString);
    }

    /** `st_slice_string(len)`: NULL, with the cursor left where it is, when
        `len` (converted to `size_t`) exceeds `length - position`; otherwise
        the `len + 1` bytes from the cursor on, the last of them included,
        with the cursor moved past all `len + 1`. */
    method SliceString(len: Int32) returns (r: Option<seq<Byte>>)
      requires Valid() && Readable() && position <= length
      modifies this`position
      ensures r.None? <==> AsSize(len) > length - old(position)
      ensures r.None? ==> position == old(position)
      ensures r.Some? ==> 0 <= len && position == old(position) + len + 1
      ensures r.Some? ==> r.value == buf[old(position)..position]
    {
      if AsSize(len) > length - position {
        return None;
      }
      var subString: seq<Byte> := [];
      var end := position + len;
      ghost var start := position;
      while position <= end
        invariant start <= position <= end + 1
        invariant subString == buf[start..position]
      {
        subString := subString + [buf[position]];
        position := position + 1;
      }
      return Some(subString);
    }

    /** The copy loop of `st_extract_numbers`: the bytes from `lo` through
        `hi`, both included. */
    method CopyRange(lo: nat, hi: nat) returns (numbers: seq<Byte>)
      requires lo <= hi < buf.Length
      ensures numbers == buf[lo..hi + 1]
    {
      numbers := [];
      var i := lo;
      while i <= hi
        invariant lo <= i <= hi + 1
        invariant numbers == buf[lo..i]
      {
        numbers := numbers + [buf[i]];
        i := i + 1;
      }
    }

    /** `st_extract_numbers`: measures the run of numeric bytes at the cursor
        and then always steps the cursor back by one, onto the last byte of
        the run, or (for an empty run) to just before where it started. NULL
        for an empty run; otherwise the run together with the byte that ends
        it. */
    method ExtractNumbers() returns (r: Option<seq<Byte>>)
      requires Valid() && Terminated() && position <= length
      modifies this`position
      ensures position == SizeSub(old(position) + NumericRun(buf[..], length, old(position)), 1)
      ensures r.None? <==> NumericRun(buf[..], length, old(position)) == 0
      ensures r.Some? ==> r.value == buf[old(position)..old(position) + NumericRun(buf[..], length, old(position)) + 1]
    {
      ghost var b := buf[..];
      var token := buf[position];
      var start := position;
      while token != NUL && IsNumeric(token) == 1
        invariant start <= position <= length
        invariant token == b[position]
        invariant start + NumericRun(b, length, start) == position + NumericRun(b, length, position)
        decreases length - position
      {
        position := position + 1;
        token := buf[position];
      }
      var end := position;
      var len := end - start;
      ghost var n := NumericRun(buf[..], length, old(position));
      assert n == len && start == old(position);
      position := SizeSub(end, 1);
      if len == 0 {
        return None;
      }
      var numbers := CopyRange(start, end);
      assert numbers == buf[old(position)..old(position) + n + 1];
      return Some(numbers);
    }

    /** `st_extract_double`: the cursor effect of `st_extract_numbers`, and
        NULL under the same condition; otherwise the value `strtod` reads from
        the extracted text. The conversion itself is the parameter `strtod`. */
    method ExtractDouble<D>(strtod: seq<Byte> -> D) returns (r: Option<D>)
      requires Valid() && Terminated() && position <= length
      modifies this`position
      ensures position == SizeSub(old(position) + NumericRun(buf[..], length, old(position)), 1)
      ensures r.None? <==> NumericRun(buf[..], length, old(position)) == 0
      ensures r.Some? ==> r.value == strtod(buf[old(position)..old(position) + NumericRun(buf[..], length, old(position)) + 1])
    {
      var numbers := ExtractNumbers();
      if numbers.None? {
        return None;
      }
      return Some(strtod(numbers.value));
    }

    /** `st_starts_with(needle)`: 1 when the text at the cursor starts with
        `needle`, with the cursor moved `|needle| + 1` bytes (the slice it
        takes is one byte longer than the needle); otherwise 0, with the
        cursor restored. */
    method StartsWith(needle: seq<Byte>) returns (r: int)
      requires Valid() && Readable() && position <= length
      requires NUL !in needle && |needle| <= INT_MAX
      modifies this`position
      ensures r == 0 || r == 1
      ensures r == 1 <==> MatchesAt(buf[..], length, old(position), needle)
      ensures r == 0 ==> position == old(position)
      ensures r == 1 ==> position == old(position) + |needle| + 1
    {
      var originalPosition := position;
      var len := |needle|;
      var extracted := SliceString(len);
      if extracted.None? {
        position := originalPosition;
        return 0;
      }
      StrnEqualWithoutNul(extracted.value, needle, len);
      assert extracted.value[..len] == buf[originalPosition..originalPosition + len];
      if !StrnEqual(extracted.value, needle, len) {
        position := originalPosition;
        return 0;
      }
      return 1;
    }

    /** `st_extract_boolean(boolValue, intValue)`: `intValue` when
        `st_starts_with(boolValue)` succeeds, NULL when it returns 0. */
    method ExtractBoolean(boolValue: seq<Byte>, intValue: Int32) returns (r: Option<Int32>)
      requires Valid() && Readable() && position <= length
      requires NUL !in boolValue && |boolValue| <= INT_MAX
      modifies this`position
      ensures r.None? <==> !MatchesAt(buf[..], length, old(position), boolValue)
      ensures r.None? ==> position == old(position)
      ensures r.Some? ==> r.value == intValue && position == old(position) + |boolValue| + 1
    {
      var found := StartsWith(boolValue);
      if found == 0 {
        return None;
      }
      return Some(intValue);
    }

    /** `st_expand_string(size)`: 1 without any change when `position + size`
        is below `length`; otherwise the buffer is reallocated to `length +
        max(size, inc)` bytes, and `inc` becomes that step. 0 when the
        `realloc` fails, with nothing changed. All sums are `size_t` sums. */
    method ExpandString(size: SizeT, allocOk: bool) returns (r: int)
      requires Valid()
      modifies this
      ensures Valid() && position == old(position)
      ensures r == 0 || r == 1
      ensures r == 1 <==> old(ExpandOk(position, length, inc, size, allocOk))
      ensures r == 0 || old(HasRoom(position, length, size)) ==>
                buf == old(buf) && length == old(length) && inc == old(inc)
      ensures r == 1 && !old(HasRoom(position, length, size)) ==>
                && fresh(buf)
                && inc == Max(size, old(inc))
                && length == buf.Length == SizeAdd(old(length), inc)
                && forall i :: 0 <= i < Min(old(buf.Length), length) ==> buf[i] == old(buf[i])
      ensures r == 1 ==> (length == GrownLength(old(position), old(length), old(inc), size)
                          && inc == GrownInc(old(position), old(length), old(inc), size))
      ensures inc >= old(inc)
      ensures r == 1 && old(position) <= old(length)
              && old(position) + size < SIZE_MODULUS && old(length) + Max(size, old(inc)) < SIZE_MODULUS
              ==> position + size <= length
    {
      if SizeAdd(position, size) < length {
        return 1;
      }
      var addSize := if size > inc then size else inc;
      var newLength := SizeAdd(length, addSize);
      var grown := Realloc(buf, newLength, allocOk);
      if grown.None? {
        return 0;
      }
      buf := grown.value;
      length := newLength;
      inc := addSize;
      return 1;
    }

    /** `st_append_string(s)`: after a successful `st_expand_string(|s|)`,
        overwrites the `|s|` bytes at the cursor with `s` and moves the cursor
        past them; 0, with nothing changed, when the expansion fails. */
    method AppendString(s: seq<Byte>, allocOk: bool) returns (r: int)
      requires Valid() && position <= length && inc <= MAX_OBJECT
      requires NUL !in s && |s| <= MAX_OBJECT
      modifies this, buf
      ensures Valid() && position <= length && inc <= MAX_OBJECT
      ensures AppendEffect(old(State()), State(), s, allocOk, r)
      ensures buf == old(buf) || fresh(buf)
      ensures buf == old(buf) <==> r == 0 || old(HasRoom(position, length, |s|))
    {
      var len := |s|;
      var expanded := ExpandString(len, allocOk);
      if expanded == 0 {
        assert State() == old(State());
        return 0;
      }
      ghost var g := State();
      CopyAtCursor(s);
      AppendHalves(old(State()), g, State(), s, allocOk);
      r := 1;
    }

    /** The copy loop of `st_append_string`: writes `s` over the bytes at the
        cursor and moves the cursor past them. */
    method CopyAtCursor(s: seq<Byte>)
      requires Valid() && position + |s| <= length
      modifies this`position, buf
      ensures position == old(position) + |s|
      ensures buf[..] == old(buf[..])[..old(position)] + s + old(buf[..])[position..]
    {
      ghost var before := buf[..];
      ghost var start := position;
      var index := 0;
      var end := position + |s|;
      while position < end
        invariant start <= position <= end
        invariant index == position - start
        invariant forall i :: 0 <= i < buf.Length && !(start <= i < position) ==> buf[i] == before[i]
        invariant forall i :: start <= i < position ==> buf[i] == s[i - start]
      {
        buf[position] := s[index];
        position := position + 1;
        index := index + 1;
      }
      ghost var want := before[..start] + s + before[position..];
      assert forall i :: 0 <= i < buf.Length ==> buf[i] == want[i];
    }

    /** `st_append_quoted_string(s)`: appends `"`, then `s`, then `"`, and
        stops at the first append that fails, keeping what the earlier ones
        wrote. In every case the bytes written so far are a prefix of `"s"`.
        The three flags are the outcomes of the three possible `realloc`s. */
    method AppendQuotedString(s: seq<Byte>, allocOk1: bool, allocOk2: bool, allocOk3: bool) returns (r: int)
      requires Valid() && position <= length && inc <= MAX_OBJECT
      requires NUL !in s && |s| < MAX_OBJECT
      modifies this, buf
      ensures Valid() && position <= length && inc <= MAX_OBJECT
      ensures QuotedEffect(old(State()), State(), s, allocOk1, allocOk2, allocOk3, r)
      ensures buf == old(buf) || fresh(buf)
      ensures buf == old(buf) <==> !QuotedLayout(StartLayout(old(State())), |s|, allocOk1, allocOk2, allocOk3).moved
    {
      ghost var f0 := State();
      r := AppendString(['"'], allocOk1);
      ghost var f1 := State();
      if r == 0 {
        QuotedFirstFails(f0, f1, s, allocOk1, allocOk2, allocOk3);
      } else {
        r := AppendString(s, allocOk2);
        ghost var f2 := State();
        if r == 0 {
          QuotedSecondFails(f0, f1, f2, s, allocOk1, allocOk2, allocOk3);
        } else {
          r := AppendString(['"'], allocOk3);
          if r == 0 {
            QuotedThirdFails(f0, f1, f2, State(), s, allocOk1, allocOk2, allocOk3);
          } else {
            QuotedSucceeds(f0, f1, f2, State(), s, allocOk1, allocOk2, allocOk3);
          }
        }
      }
    }

    /** `st_append_double(value)`: formats `value` with `gcvt` (the parameter;
        NULL is `None`) and appends the text; 0 when formatting fails. */
    method AppendDouble<D>(value: D, gcvt: D -> Option<seq<Byte>>, allocOk: bool) returns (r: int)
      requires Valid() && position <= length && inc <= MAX_OBJECT
      requires gcvt(value).Some? ==> NUL !in gcvt(value).value && |gcvt(value).value| < 32
      modifies this, buf
      ensures Valid() && position <= length && inc <= MAX_OBJECT
      ensures gcvt(value).None? ==> r == 0 && buf == old(buf) && State() == old(State())
      ensures gcvt(value).Some? ==> AppendEffect(old(State()), State(), gcvt(value).value, allocOk, r)
      ensures buf == old(buf) || fresh(buf)
      ensures gcvt(value).Some? ==> (buf == old(buf) <==> r == 0 || old(HasRoom(position, length, |gcvt(value).value|)))
    {
      var text := gcvt(value);
      if text.None? {
        return 0;
      }
      r := AppendString(text.value, allocOk);
    }
  }
}
