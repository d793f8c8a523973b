/**
 The two readers of a replay header: the one over a buffer (app/calculators/replay_cursor.py,
 parse_replay_cursor) and the one over a file (tools/parse_osr.py, parse).

 The buffer reader skips what it does not need and takes every marker other than 0x00 for a string; the
 file reader reads every field and takes every marker other than 0x0b for a missing string.
 */
module Replay {
  import opened Common
  import opened Leb128

  const STRING_MARKER: byte := 0x0b

  /** What both readers take from a header: the mod bits, the replay length and where the replay starts. */
  datatype Header = Header(mods: int, replayLength: int, offset: nat)

  /** The content of a string and the position behind it. */
  datatype Text = Text(bytes: seq<byte>, next: nat)

  function Min(a: int, b: int): int {
    if a <= b then a else b
  }

  /** A slice as Python cuts it: indices beyond the end mean the end. */
  function Slice(b: seq<byte>, from: nat, to: nat): seq<byte>
    requires from <= to
  {
    b[Min(from, |b|)..Min(to, |b|)]
  }

  /** Little-endian 32-bit and signed 64-bit integers. */
  function Uint32(b: seq<byte>): nat
    requires |b| == 4
  {
    var b0: int, b1: int, b2: int, b3: int := b[0], b[1], b[2], b[3];
    b0 + 0x100 * b1 + 0x1_0000 * b2 + 0x100_0000 * b3
  }

  function Int32(b: seq<byte>): int
    requires |b| == 4
  {
    var u := Uint32(b);
    if u < 0x8000_0000 then u else u - 0x1_0000_0000
  }

  function Int64(b: seq<byte>): int
    requires |b| == 8
  {
    Uint32(b[..4]) + 0x1_0000_0000 * Int32(b[4..])
  }

  function EncodeUint32(u: nat): (e: seq<byte>)
    requires u < 0x1_0000_0000
  {
    [u % 0x100, u / 0x100 % 0x100, u / 0x1_0000 % 0x100, u / 0x100_0000]
  }

  function EncodeInt32(n: int): seq<byte>
    requires -0x8000_0000 <= n < 0x8000_0000
  {
    EncodeUint32(if n >= 0 then n else n + 0x1_0000_0000)
  }

  function EncodeInt64(n: int): seq<byte>
    requires -0x8000_0000_0000_0000 <= n < 0x8000_0000_0000_0000
  {
    EncodeUint32(n % 0x1_0000_0000) + EncodeInt32(n / 0x1_0000_0000)
  }

  lemma Uint32RoundTrip(u: nat)
    requires u < 0x1_0000_0000
    ensures |EncodeUint32(u)| == 4 && Uint32(EncodeUint32(u)) == u
  {
    assert u == u % 0x100 + 0x100 * (u / 0x100);
    assert u / 0x100 == u / 0x100 % 0x100 + 0x100 * (u / 0x1_0000);
    assert u / 0x1_0000 == u / 0x1_0000 % 0x100 + 0x100 * (u / 0x100_0000);
  }

  lemma Int32RoundTrip(n: int)
    requires -0x8000_0000 <= n < 0x8000_0000
    ensures |EncodeInt32(n)| == 4 && Int32(EncodeInt32(n)) == n
  {
    Uint32RoundTrip(if n >= 0 then n else n + 0x1_0000_0000);
  }

  lemma Int64RoundTrip(n: int)
    requires -0x8000_0000_0000_0000 <= n < 0x8000_0000_0000_0000
    ensures |EncodeInt64(n)| == 8 && Int64(EncodeInt64(n)) == n
  {
    var low, high := EncodeUint32(n % 0x1_0000_0000), EncodeInt32(n / 0x1_0000_0000);
    Uint32RoundTrip(n % 0x1_0000_0000);
    Int32RoundTrip(n / 0x1_0000_0000);
    assert (low + high)[..4] == low && (low + high)[4..] == high;
  }

  // ----- The buffer reader, as positions; None is an error.

  function BufferString(b: seq<byte>, i: nat): Option<Text> {
    if i >= |b| then None
    else if b[i] == 0 then Some(Text([], i + 1))
    else
      match Uleb(b, i + 1)
      case None => None
      case Some(d) => Some(Text(Slice(b, d.next, d.next + d.value), d.next + d.value))
  }

  function Next(t: Option<Text>): Option<nat> {
    if t.None? then None else Some(t.value.next)
  }

  function AfterString(b: seq<byte>, p: Option<nat>): Option<nat> {
    if p.None? then None else Next(BufferString(b, p.value))
  }

  function Skip(p: Option<nat>, n: nat): Option<nat> {
    if p.None? then None else Some(p.value + n)
  }

  /** Reading n bytes, all of which have to be there. */
  function Fixed(b: seq<byte>, p: Option<nat>, n: nat): Option<nat> {
    if p.Some? && p.value + n <= |b| then Some(p.value + n) else None
  }

  /** Where the mods are, and where the life bar graph is. */
  function BufferMods(b: seq<byte>): Option<nat> {
    Skip(AfterString(b, AfterString(b, AfterString(b, Some(5)))), 19)
  }

  /** Where the replay length is, when the mods end at p. */
  function BufferLengthFrom(b: seq<byte>, p: Option<nat>): Option<nat> {
    Skip(AfterString(b, p), 8)
  }

  function BufferLength(b: seq<byte>): Option<nat> {
    BufferLengthFrom(b, Fixed(b, BufferMods(b), 4))
  }

  function HeaderAt(b: seq<byte>, mods: Option<nat>, length: Option<nat>): Option<Header> {
    if Fixed(b, mods, 4).None? || Fixed(b, length, 4).None? then None
    else Some(Header(Int32(b[mods.value..mods.value + 4]), Int32(b[length.value..length.value + 4]), length.value + 4))
  }

  function BufferHeader(b: seq<byte>): Option<Header> {
    HeaderAt(b, BufferMods(b), BufferLength(b))
  }

  method ReadString(b: seq<byte>, start: nat) returns (r: Option<Text>)
    ensures r == BufferString(b, start)
  {
    var i := start;
    if i >= |b| {
      return None;
    }
    if b[i] == 0 {
      return Some(Text([], i + 1));
    }
    i := i + 1;
    var length := ReadUleb(b, i);
    if length.None? {
      return None;
    }
    i := length.value.next;
    r := Some(Text(Slice(b, i, i + length.value.value), i + length.value.value));
  }

  method UnpackInt32(b: seq<byte>, i: nat) returns (r: Option<int>)
    ensures r == if Fixed(b, Some(i), 4).Some? then Some(Int32(b[i..i + 4])) else None
  {
    r := if i + 4 <= |b| then Some(Int32(b[i..i + 4])) else None;
  }

  /** The header walk over a buffer. */
  method ParseReplayCursor(b: seq<byte>) returns (r: Option<Header>)
    ensures r == BufferHeader(b)
  {
    var i := WalkToMods(b);
    if i.None? { return None; }
    var mods := UnpackInt32(b, i.value);
    if mods.None? { return None; }
    var j := WalkToLength(b, i.value + 4);
    if j.None? { return None; }
    var replayLength := UnpackInt32(b, j.value);
    if replayLength.None? { return None; }
    return Some(Header(mods.value, replayLength.value, j.value + 4));
  }

  /** The life bar graph and the timestamp. */
  method WalkToLength(b: seq<byte>, start: nat) returns (p: Option<nat>)
    ensures p == BufferLengthFrom(b, Some(start))
  {
    var lifeBar := ReadString(b, start);
    if lifeBar.None? { return None; }
    return Some(lifeBar.value.next + 8);
  }

  method WalkToMods(b: seq<byte>) returns (p: Option<nat>)
    ensures p == BufferMods(b)
  {
    var i: nat := 0;
    i := i + 1;
    i := i + 4;
    var beatmap := ReadString(b, i);
    if beatmap.None? { return None; }
    var player := ReadString(b, beatmap.value.next);
    if player.None? { return None; }
    var replay := ReadString(b, player.value.next);
    if replay.None? { return None; }
    i := replay.value.next;
    i := i + 12;
    i := i + 4;
    i := i + 2;
    i := i + 1;
    return Some(i);
  }

  // ----- The file reader.

  function FileString(b: seq<byte>, p: nat): Option<Text> {
    if p >= |b| then Some(Text([], p))
    else if b[p] != STRING_MARKER then Some(Text([], p + 1))
    else
      match Uleb(b, p + 1)
      case None => None
      case Some(d) => Some(Text(Slice(b, d.next, d.next + d.value), Min(d.next + d.value, |b|)))
  }

  function PastString(b: seq<byte>, p: Option<nat>): Option<nat> {
    if p.None? then None else Next(FileString(b, p.value))
  }

  function FileStrings(b: seq<byte>): Option<nat> {
    PastString(b, PastString(b, PastString(b, Fixed(b, Fixed(b, Some(0), 1), 4))))
  }

  function PastCounts(b: seq<byte>, p: Option<nat>): Option<nat> {
    Fixed(b, Fixed(b, Fixed(b, Fixed(b, p, 12), 4), 2), 1)
  }

  function FileMods(b: seq<byte>): Option<nat> {
    PastCounts(b, FileStrings(b))
  }

  function FileLengthFrom(b: seq<byte>, p: Option<nat>): Option<nat> {
    Fixed(b, PastString(b, p), 8)
  }

  function FileLength(b: seq<byte>): Option<nat> {
    FileLengthFrom(b, Fixed(b, FileMods(b), 4))
  }

  /** The header whose mods are at the position. */
  function FileHeaderFrom(b: seq<byte>, mods: Option<nat>): Option<Header> {
    HeaderAt(b, mods, FileLengthFrom(b, Fixed(b, mods, 4)))
  }

  function FileHeader(b: seq<byte>): Option<Header> {
    FileHeaderFrom(b, FileMods(b))
  }

  /** All that is read from a file: the header, and the score id behind the replay. */
  datatype Parsed = Parsed(header: Header, onlineScoreId: int)

  /** Where the score id is; the replay length may be negative. */
  function IdAt(h: Header): int {
    h.offset + h.replayLength
  }

  predicate HasId(b: seq<byte>, h: Header) {
    0 <= IdAt(h) && IdAt(h) + 8 <= |b|
  }

  function FileResult(b: seq<byte>): Option<Parsed> {
    match FileHeader(b)
    case None => None
    case Some(h) => if HasId(b, h) then Some(Parsed(h, Int64(b[IdAt(h)..IdAt(h) + 8]))) else None
  }

  /** An open file. */
  class File {
    const data: seq<byte>
    var pos: nat

    constructor (data: seq<byte>)
      ensures this.data == data && pos == 0
    {
      this.data := data;
      pos := 0;
    }

    ghost predicate Valid()
      reads this
    {
      pos <= |data|
    }

    /** Up to n bytes, fewer only at the end. */
    method Read(n: nat) returns (bytes: seq<byte>)
      requires Valid()
      modifies this
      ensures Valid() && bytes == Slice(data, old(pos), old(pos) + n) && pos == Min(old(pos) + n, |data|)
    {
      var end := Min(pos + n, |data|);
      bytes := data[pos..end];
      pos := end;
    }

    /** Exactly n bytes; the conversion of a shorter piece is an error. */
    method ReadField(n: nat) returns (bytes: Option<seq<byte>>)
      requires Valid()
      modifies this
      ensures Valid()
      ensures bytes.Some? <==> Fixed(data, Some(old(pos)), n).Some?
      ensures bytes.Some? ==> pos == old(pos) + n && bytes.value == data[old(pos)..pos]
    {
      var piece := Read(n);
      bytes := if |piece| == n then Some(piece) else None;
    }

    /** Move by an offset and read a field there; going back beyond the start is an error. */
    method ReadFieldAt(offset: int, n: nat) returns (bytes: Option<seq<byte>>)
      requires Valid() && n > 0
      modifies this
      ensures Valid()
      ensures bytes.Some? <==> 0 <= old(pos) + offset && old(pos) + offset + n <= |data|
      ensures bytes.Some? ==> bytes.value == data[old(pos) + offset..old(pos) + offset + n]
    {
      if pos + offset < 0 || pos + offset > |data| {
        return None;
      }
      pos := pos + offset;
      bytes := ReadField(n);
    }

    /** The number at the position; None is an index error at the end of the file. */
    method ReadUleb128() returns (r: Option<nat>)
      requires Valid()
      modifies this
      ensures Valid() && (r.Some? <==> Uleb(data, old(pos)).Some?)
      ensures r.Some? ==> Uleb(data, old(pos)) == Some(Decoded(r.value, pos))
    {
      var result: nat, shift: nat := 0, 0;
      NothingRead(Uleb(data, pos));
      ghost var start := pos;
      while true
        invariant Valid() && result < Pow2(shift)
        invariant OnTop(result, shift, Uleb(data, pos)) == Uleb(data, start)
        decreases |data| - pos
      {
        ghost var at := pos;
        var piece := Read(1);
        if piece == [] {
          return None;
        }
        var x := piece[0];
        UlebStep(data, at, result, shift);
        result := Or(result, ShiftLeft(x % 128, shift));
        if x < 128 {
          return Some(result);
        }
        shift := shift + 7;
      }
    }

    method ReadStr() returns (r: Option<seq<byte>>)
      requires Valid()
      modifies this
      ensures Valid() && (r.Some? <==> FileString(data, old(pos)).Some?)
      ensures r.Some? ==> FileString(data, old(pos)) == Some(Text(r.value, pos))
    {
      var marker := Read(1);
      if marker == [] || marker[0] != STRING_MARKER {
        return Some([]);
      }
      var length := ReadUleb128();
      if length.None? {
        return None;
      }
      var content := Read(length.value);
      r := Some(content);
    }
  }

  /** The fields of the file. */
  method Parse(b: seq<byte>) returns (r: Option<Parsed>)
    ensures r == FileResult(b)
  {
    var f := new File(b);
    var header := ReadHeader(f);
    if header.None? { return None; }
    var id := f.ReadFieldAt(header.value.replayLength, 8);
    if id.None? { return None; }
    return Some(Parsed(header.value, Int64(id.value)));
  }

  /** The fields up to the replay. */
  method ReadHeader(f: File) returns (r: Option<Header>)
    requires f.Valid() && f.pos == 0
    modifies f
    ensures f.Valid() && r == FileHeader(f.data) && (r.Some? ==> f.pos == r.value.offset)
  {
    var m := ReadToMods(f);
    if m.None? { return None; }
    r := ReadFromMods(f);
  }

  /** The mods, the life bar graph, the timestamp and the replay length. */
  method ReadFromMods(f: File) returns (r: Option<Header>)
    requires f.Valid()
    modifies f
    ensures f.Valid() && r == FileHeaderFrom(f.data, Some(old(f.pos))) && (r.Some? ==> f.pos == r.value.offset)
  {
    var mods := f.ReadField(4);
    if mods.None? { return None; }
    var l := ReadLifeBar(f);
    if l.None? { return None; }
    var replayLength := f.ReadField(4);
    if replayLength.None? { return None; }
    return Some(Header(Int32(mods.value), Int32(replayLength.value), f.pos));
  }

  method ReadToMods(f: File) returns (p: Option<nat>)
    requires f.Valid() && f.pos == 0
    modifies f
    ensures f.Valid() && p == FileMods(f.data) && (p.Some? ==> p.value == f.pos)
  {
    p := ReadStrings(f);
    if p.None? { return None; }
    p := ReadCounts(f);
  }

  /** The mode, the version and the first three strings. */
  method ReadStrings(f: File) returns (p: Option<nat>)
    requires f.Valid() && f.pos == 0
    modifies f
    ensures f.Valid() && p == FileStrings(f.data) && (p.Some? ==> p.value == f.pos)
  {
    var mode := f.ReadField(1);
    if mode.None? { return None; }
    var version := f.ReadField(4);
    if version.None? { return None; }
    var beatmap := f.ReadStr();
    if beatmap.None? { return None; }
    var player := f.ReadStr();
    if player.None? { return None; }
    var replay := f.ReadStr();
    if replay.None? { return None; }
    return Some(f.pos);
  }

  /** The hit counts, the score, the combo and whether it was perfect. */
  method ReadCounts(f: File) returns (p: Option<nat>)
    requires f.Valid()
    modifies f
    ensures f.Valid() && p == PastCounts(f.data, Some(old(f.pos))) && (p.Some? ==> p.value == f.pos)
  {
    var counts := f.ReadField(12);
    if counts.None? { return None; }
    var totalScore := f.ReadField(4);
    if totalScore.None? { return None; }
    var maxCombo := f.ReadField(2);
    if maxCombo.None? { return None; }
    var perfect := f.ReadField(1);
    if perfect.None? { return None; }
    return Some(f.pos);
  }

  /** The life bar graph and the timestamp. */
  method ReadLifeBar(f: File) returns (p: Option<nat>)
    requires f.Valid()
    modifies f
    ensures f.Valid() && p == FileLengthFrom(f.data, Some(old(f.pos))) && (p.Some? ==> p.value == f.pos)
  {
    var lifeBar := f.ReadStr();
    if lifeBar.None? { return None; }
    var timestamp := f.ReadField(8);
    if timestamp.None? { return None; }
    return Some(f.pos);
  }

  // ----- Both readers side by side.

  /** One of the two markers every writer uses, as far as there is one. */
  ghost predicate Standard(b: seq<byte>, p: Option<nat>) {
    p.Some? && p.value < |b| ==> b[p.value] == 0 || b[p.value] == STRING_MARKER
  }

  /** The markers of the first three strings. */
  ghost predicate StringsMarked(b: seq<byte>) {
    Standard(b, Some(5)) && Standard(b, AfterString(b, Some(5))) && Standard(b, AfterString(b, AfterString(b, Some(5))))
  }

  /** The markers the buffer reader comes across. */
  ghost predicate WellMarked(b: seq<byte>) {
    StringsMarked(b) && Standard(b, Fixed(b, BufferMods(b), 4))
  }

  /** At one string the readers do the same exactly if the marker is standard and the string complete. */
  lemma StringsAgreeExactly(b: seq<byte>, i: nat)
    requires i < |b|
    ensures BufferString(b, i) == FileString(b, i) <==>
      Standard(b, Some(i)) && (BufferString(b, i).Some? ==> BufferString(b, i).value.next <= |b|)
  {
    if Uleb(b, i + 1).Some? {
      UlebBounds(b, i + 1);
    }
  }

  /** The readers are at the same place, or both have run into the end and will fail. */
  ghost predicate InStep(b: seq<byte>, p: Option<nat>, q: Option<nat>) {
    || (p.Some? && p.value <= |b| && q == p)
    || ((p.Some? ==> p.value >= |b|) && (q.Some? ==> q.value == |b|))
  }

  lemma StringKeepsStep(b: seq<byte>, p: Option<nat>, q: Option<nat>)
    requires InStep(b, p, q) && Standard(b, p)
    ensures InStep(b, AfterString(b, p), PastString(b, q))
  {
  }

  lemma SkipKeepsStep(b: seq<byte>, p: Option<nat>, q: Option<nat>, n: nat)
    requires InStep(b, p, q) && n > 0
    ensures InStep(b, Skip(p, n), Fixed(b, q, n))
  {
  }

  /** A field that both readers need brings them together. */
  lemma FieldKeepsStep(b: seq<byte>, p: Option<nat>, q: Option<nat>, n: nat)
    requires InStep(b, p, q) && n > 0
    ensures Fixed(b, p, n) == Fixed(b, q, n) && InStep(b, Fixed(b, p, n), Fixed(b, q, n))
    ensures Fixed(b, p, n).Some? ==> p == q
  {
  }

  /** On every input whose strings carry standard markers, truncated or not, both readers find the same
      header or both fail. */
  lemma ReadersAgree(b: seq<byte>)
    requires WellMarked(b)
    ensures BufferHeader(b) == FileHeader(b)
  {
    var p0, q0 := Skip(Skip(Some(0), 1), 4), Fixed(b, Fixed(b, Some(0), 1), 4);
    SkipKeepsStep(b, Some(0), Some(0), 1);
    SkipKeepsStep(b, Skip(Some(0), 1), Fixed(b, Some(0), 1), 4);
    var p1, q1 := AfterString(b, p0), PastString(b, q0);
    StringKeepsStep(b, p0, q0);
    var p2, q2 := AfterString(b, p1), PastString(b, q1);
    StringKeepsStep(b, p1, q1);
    var p3, q3 := AfterString(b, p2), PastString(b, q2);
    StringKeepsStep(b, p2, q2);
    FieldsKeepStep(b, p3, q3);
    FieldKeepsStep(b, BufferMods(b), FileMods(b), 4);
    var p4, q4 := Fixed(b, BufferMods(b), 4), Fixed(b, FileMods(b), 4);
    StringKeepsStep(b, p4, q4);
    SkipKeepsStep(b, AfterString(b, p4), PastString(b, q4), 8);
    FieldKeepsStep(b, BufferLength(b), FileLength(b), 4);
  }

  /** What the file reader returns is what the buffer reader finds; it fails besides exactly when no score id
      stands behind the replay. */
  lemma ResultsAgree(b: seq<byte>)
    requires WellMarked(b)
    ensures FileResult(b).Some? <==> BufferHeader(b).Some? && HasId(b, BufferHeader(b).value)
    ensures FileResult(b).Some? ==> BufferHeader(b) == Some(FileResult(b).value.header)
  {
    ReadersAgree(b);
  }

  lemma FieldsKeepStep(b: seq<byte>, p: Option<nat>, q: Option<nat>)
    requires InStep(b, p, q)
    ensures InStep(b, Skip(p, 19), PastCounts(b, q))
  {
  }

  /** With any other marker they may both succeed and disagree. */
  lemma OtherMarkersDisagree(x: byte)
    requires x != 0 && x != STRING_MARKER
    ensures exists b ::
      && |b| > 5 && b[5] == x
      && BufferHeader(b).Some? && FileHeader(b).Some? && BufferHeader(b) != FileHeader(b)
  {
    var b: seq<byte> := seq(45, i => if i == 5 then x else 0);
    BufferTakesString(b, x);
    FileSkipsMarker(b, x);
    assert |b| > 5 && b[5] == x;
  }

  lemma BufferTakesString(b: seq<byte>, x: byte)
    requires x != 0 && |b| == 45 && b[5] == x && forall i | 0 <= i < 45 && i != 5 :: b[i] == 0
    ensures BufferHeader(b).Some? && BufferHeader(b).value.offset == 45
  {
    assert Uleb(b, 6) == Some(Decoded(0, 7)) && Slice(b, 7, 7) == [];
    assert BufferString(b, 5) == Some(Text([], 7));
    assert BufferString(b, 7) == Some(Text([], 8)) && BufferString(b, 8) == Some(Text([], 9));
    assert BufferMods(b) == Some(28) && BufferString(b, 32) == Some(Text([], 33)) && BufferLength(b) == Some(41);
  }

  lemma FileSkipsMarker(b: seq<byte>, x: byte)
    requires x != STRING_MARKER && |b| == 45 && b[5] == x && forall i | 0 <= i < 45 && i != 5 :: b[i] == 0
    ensures FileHeader(b).Some? && FileHeader(b).value.offset == 44
  {
    assert FileString(b, 5) == Some(Text([], 6)) && FileString(b, 6) == Some(Text([], 7));
    assert FileString(b, 7) == Some(Text([], 8));
    assert FileMods(b) == Some(27) && FileString(b, 31) == Some(Text([], 32)) && FileLength(b) == Some(40);
  }

  // ----- A file as it is written.

  /** The piece stands at index i. */
  predicate At(b: seq<byte>, i: nat, piece: seq<byte>) {
    i + |piece| <= |b| && b[i..i + |piece|] == piece
  }

  function Flatten(pieces: seq<seq<byte>>): seq<byte> {
    if pieces == [] then [] else pieces[0] + Flatten(pieces[1..])
  }

  /** Where the k-th piece starts. */
  function Offset(pieces: seq<seq<byte>>, k: nat): nat
    requires k <= |pieces|
  {
    if k == 0 then 0 else |pieces[0]| + Offset(pieces[1..], k - 1)
  }

  lemma AtBehind(x: seq<byte>, b: seq<byte>, i: nat, piece: seq<byte>)
    requires At(b, i, piece)
    ensures At(x + b, |x| + i, piece)
  {
    assert (x + b)[|x| + i..|x| + i + |piece|] == b[i..i + |piece|];
  }

  /** Every piece stands where it should, and the next one right behind it. */
  lemma {:induction false} PieceAt(pieces: seq<seq<byte>>, rest: seq<byte>, k: nat)
    requires k < |pieces|
    ensures At(Flatten(pieces) + rest, Offset(pieces, k), pieces[k])
    ensures Offset(pieces, k + 1) == Offset(pieces, k) + |pieces[k]|
  {
    var tail := Flatten(pieces[1..]) + rest;
    assert Flatten(pieces) + rest == pieces[0] + tail;
    if k == 0 {
      assert (pieces[0] + tail)[0..|pieces[0]|] == pieces[0];
      assert Offset(pieces[1..], 0) == 0;
    } else {
      PieceAt(pieces[1..], rest, k - 1);
      AtBehind(pieces[0], tail, Offset(pieces[1..], k - 1), pieces[k]);
    }
  }

  lemma {:induction false} FlattenedLength(pieces: seq<seq<byte>>)
    ensures |Flatten(pieces)| == Offset(pieces, |pieces|)
  {
    if pieces != [] {
      FlattenedLength(pieces[1..]);
    }
  }

  /** A missing string is a zero byte. */
  function EncodeString(s: Option<seq<byte>>): (e: seq<byte>)
    ensures e != []
  {
    if s.None? then [0] else [STRING_MARKER] + Encode(|s.value|) + s.value
  }

  function Content(s: Option<seq<byte>>): seq<byte> {
    if s.None? then [] else s.value
  }

  /** A string that is written is read back by both readers, with the position behind it. */
  lemma StringRoundTrip(b: seq<byte>, i: nat, s: Option<seq<byte>>)
    requires At(b, i, EncodeString(s))
    ensures Standard(b, Some(i))
    ensures BufferString(b, i) == FileString(b, i) == Some(Text(Content(s), i + |EncodeString(s)|))
  {
    assert b[i] == EncodeString(s)[0] by {
      assert b[i..i + |EncodeString(s)|][0] == b[i];
    }
    if s.Some? {
      MarkedRoundTrip(b, i, s.value);
      StringsAgreeExactly(b, i);
    }
  }

  lemma MarkedRoundTrip(b: seq<byte>, i: nat, s: seq<byte>)
    requires At(b, i, [STRING_MARKER] + Encode(|s|) + s)
    ensures BufferString(b, i) == Some(Text(s, i + 1 + |Encode(|s|)| + |s|))
  {
    var text := [STRING_MARKER] + Encode(|s|) + s;
    var before, behind := b[..i], b[i + |text|..];
    assert |before| == i;
    Framed(b, i, text);
    MarkedString(before, s, behind);
  }

  lemma Framed(b: seq<byte>, i: nat, piece: seq<byte>)
    requires At(b, i, piece)
    ensures b == b[..i] + piece + b[i + |piece|..]
  {
  }

  lemma MarkedString(before: seq<byte>, s: seq<byte>, behind: seq<byte>)
    ensures
      var b := before + ([STRING_MARKER] + Encode(|s|) + s) + behind;
      BufferString(b, |before|) == Some(Text(s, |before| + 1 + |Encode(|s|)| + |s|))
  {
    var b, e := before + ([STRING_MARKER] + Encode(|s|) + s) + behind, Encode(|s|);
    RoundTrip(before + [STRING_MARKER], |s|, s + behind);
    assert b == before + [STRING_MARKER] + e + (s + behind);
    SliceInside(before + [STRING_MARKER] + e, s, behind);
    assert b == (before + [STRING_MARKER] + e) + s + behind;
  }

  lemma SliceInside(before: seq<byte>, s: seq<byte>, behind: seq<byte>)
    ensures Slice(before + s + behind, |before|, |before| + |s|) == s
  {
  }

  lemma WrittenString(b: seq<byte>, i: nat, s: Option<seq<byte>>, j: nat)
    requires At(b, i, EncodeString(s)) && j == i + |EncodeString(s)|
    ensures Standard(b, Some(i)) && AfterString(b, Some(i)) == Some(j)
  {
    StringRoundTrip(b, i, s);
  }

  lemma WrittenInt32(b: seq<byte>, i: nat, n: int, j: nat)
    requires -0x8000_0000 <= n < 0x8000_0000 && At(b, i, EncodeInt32(n)) && j == i + |EncodeInt32(n)|
    ensures j == i + 4 && Fixed(b, Some(i), 4) == Some(j) && Int32(b[i..j]) == n
  {
    Int32RoundTrip(n);
  }

  datatype Fields = Fields(
    start: seq<byte>,
    beatmap: Option<seq<byte>>,
    player: Option<seq<byte>>,
    replay: Option<seq<byte>>,
    counts: seq<byte>,
    mods: int,
    lifeBar: Option<seq<byte>>,
    timestamp: seq<byte>,
    replayLength: int)
  {
    ghost predicate Valid() {
      && |start| == 5 && |counts| == 19 && |timestamp| == 8
      && -0x8000_0000 <= mods < 0x8000_0000 && -0x8000_0000 <= replayLength < 0x8000_0000
    }

    function Pieces(): (pieces: seq<seq<byte>>)
      requires -0x8000_0000 <= mods < 0x8000_0000 && -0x8000_0000 <= replayLength < 0x8000_0000
      ensures |pieces| == 9
    {
      [start, EncodeString(beatmap), EncodeString(player), EncodeString(replay), counts,
       EncodeInt32(mods), EncodeString(lifeBar), timestamp, EncodeInt32(replayLength)]
    }

    function Encoded(): seq<byte>
      requires -0x8000_0000 <= mods < 0x8000_0000 && -0x8000_0000 <= replayLength < 0x8000_0000
    {
      Flatten(Pieces())
    }
  }

  /** The first three strings and the mods. */
  lemma StringsWritten(f: Fields, b: seq<byte>, o1: nat, o2: nat, o3: nat, o4: nat, m: nat)
    requires f.Valid() && o1 == 5 && m == o4 + 19
    requires At(b, o1, EncodeString(f.beatmap)) && o2 == o1 + |EncodeString(f.beatmap)|
    requires At(b, o2, EncodeString(f.player)) && o3 == o2 + |EncodeString(f.player)|
    requires At(b, o3, EncodeString(f.replay)) && o4 == o3 + |EncodeString(f.replay)|
    ensures BufferMods(b) == Some(m) && StringsMarked(b)
  {
    WrittenString(b, o1, f.beatmap, o2);
    WrittenString(b, o2, f.player, o3);
    WrittenString(b, o3, f.replay, o4);
  }

  /** A header with its pieces in place, for any way the mods were found. */
  lemma PiecesFound(f: Fields, b: seq<byte>, mods: Option<nat>, o6: nat, o7: nat, l: nat, end: nat)
    requires f.Valid() && mods.Some? && l == o7 + 8
    requires At(b, mods.value, EncodeInt32(f.mods)) && o6 == mods.value + |EncodeInt32(f.mods)|
    requires At(b, o6, EncodeString(f.lifeBar)) && o7 == o6 + |EncodeString(f.lifeBar)|
    requires At(b, l, EncodeInt32(f.replayLength)) && end == l + |EncodeInt32(f.replayLength)|
    ensures HeaderAt(b, mods, BufferLengthFrom(b, Fixed(b, mods, 4))) == Some(Header(f.mods, f.replayLength, end))
    ensures Standard(b, Fixed(b, mods, 4))
  {
    WrittenInt32(b, mods.value, f.mods, o6);
    WrittenString(b, o6, f.lifeBar, o7);
    WrittenInt32(b, l, f.replayLength, end);
  }

  /** Whatever was written is what both readers find, and the replay starts right behind the header. */
  lemma HeaderRoundTrip(f: Fields, frames: seq<byte>)
    requires f.Valid()
    ensures
      var b := f.Encoded() + frames;
      BufferHeader(b) == FileHeader(b) == Some(Header(f.mods, f.replayLength, |f.Encoded()|))
  {
    var p, b := f.Pieces(), f.Encoded() + frames;
    forall k: nat | k < 9
      ensures At(b, Offset(p, k), p[k]) && Offset(p, k + 1) == Offset(p, k) + |p[k]|
    {
      PieceAt(p, frames, k);
    }
    FlattenedLength(p);
    StringsWritten(f, b, Offset(p, 1), Offset(p, 2), Offset(p, 3), Offset(p, 4), Offset(p, 5));
    PiecesFound(f, b, BufferMods(b), Offset(p, 6), Offset(p, 7), Offset(p, 8), Offset(p, 9));
    ReadersAgree(b);
  }

  lemma IdFound(b: seq<byte>, h: Header, id: int)
    requires FileHeader(b) == Some(h) && IdAt(h) >= 0
    requires -0x8000_0000_0000_0000 <= id < 0x8000_0000_0000_0000 && At(b, IdAt(h), EncodeInt64(id))
    ensures FileResult(b) == Some(Parsed(h, id))
  {
    Int64RoundTrip(id);
  }

  lemma LastPieceAt(x: seq<byte>, y: seq<byte>, z: seq<byte>, rest: seq<byte>)
    ensures At(x + (y + z + rest), |x| + |y|, z)
  {
    assert (x + (y + z + rest))[|x| + |y|..|x| + |y| + |z|] == z;
  }

  /** A whole file: the replay has the length that was written, and the score id is read back as well. */
  lemma FileRoundTrip(f: Fields, replay: seq<byte>, id: int, rest: seq<byte>, b: seq<byte>)
    requires f.Valid() && |replay| == f.replayLength && -0x8000_0000_0000_0000 <= id < 0x8000_0000_0000_0000
    requires b == f.Encoded() + (replay + EncodeInt64(id) + rest)
    ensures FileResult(b) == Some(Parsed(Header(f.mods, f.replayLength, |f.Encoded()|), id))
  {
    var header := Header(f.mods, f.replayLength, |f.Encoded()|);
    HeaderRoundTrip(f, replay + EncodeInt64(id) + rest);
    assert FileHeader(b) == Some(header);
    LastPieceAt(f.Encoded(), replay, EncodeInt64(id), rest);
    IdFound(b, header, id);
  }

  // ----- The format in plain bytes.

  lemma FlattenFirst(x: seq<byte>, rest: seq<seq<byte>>)
    ensures Flatten([x] + rest) == x + Flatten(rest)
  {
    assert ([x] + rest)[1..] == rest;
  }

  lemma NinePieces(f: Fields)
    requires f.Valid()
    ensures f.Encoded() ==
      f.start + (EncodeString(f.beatmap) + (EncodeString(f.player) + (EncodeString(f.replay) + (f.counts +
      (EncodeInt32(f.mods) + (EncodeString(f.lifeBar) + (f.timestamp + EncodeInt32(f.replayLength))))))))
  {
    var p := f.Pieces();
    assert Flatten([]) == [];
    forall k: nat | k < 9
      ensures Flatten(p[k..]) == p[k] + Flatten(p[k + 1..])
    {
      assert p[k..] == [p[k]] + p[k + 1..];
      FlattenFirst(p[k], p[k + 1..]);
    }
    assert p[0..] == p && p[9..] == [];
    assert Flatten(p[8..]) == p[8];
    assert Flatten(p[6..]) == p[6] + (p[7] + p[8]);
    assert Flatten(p[4..]) == p[4] + (p[5] + Flatten(p[6..]));
    assert Flatten(p[2..]) == p[2] + (p[3] + Flatten(p[4..]));
    assert Flatten(p) == p[0] + (p[1] + Flatten(p[2..]));
  }

  /** A string of fewer than 128 bytes is a byte 0x0b, a byte for its length, and its bytes. */
  lemma ShortString(s: seq<byte>)
    requires |s| < 128
    ensures EncodeString(Some(s)) == [0x0b, |s|] + s && EncodeString(None) == [0x00]
  {
  }

  /** A number in four bytes or in eight, the lowest first; the sign is in the highest bit. */
  lemma FourBytes(n: nat)
    requires n < 0x8000_0000
    ensures EncodeInt32(n) == [n % 256, n / 256 % 256, n / 65536 % 256, n / 16777216]
    ensures EncodeInt64(n) == [n % 256, n / 256 % 256, n / 65536 % 256, n / 16777216] + [0, 0, 0, 0]
    ensures Int32([0xfe, 0xff, 0xff, 0xff]) == -2 && Int64([0xfe, 0xff, 0xff, 0xff, 0xff, 0xff, 0xff, 0xff]) == -2
  {
    assert n / 0x1_0000_0000 == 0 && n % 0x1_0000_0000 == n;
    assert EncodeInt32(0) == [0, 0, 0, 0];
    var b: seq<byte> := [0xfe, 0xff, 0xff, 0xff, 0xff, 0xff, 0xff, 0xff];
    assert b[..4] == [0xfe, 0xff, 0xff, 0xff] && b[4..] == [0xff, 0xff, 0xff, 0xff];
  }

  /** A header byte by byte: 5 bytes, three strings behind a byte 0x0b, 19 bytes, the mods, an empty life bar as a
      zero byte, 8 bytes, and the length of the replay, which follows.  Both readers find the mods and the length. */
  lemma PlainHeader(start: seq<byte>, x: seq<byte>, y: seq<byte>, z: seq<byte>, counts: seq<byte>, mods: nat,
                    timestamp: seq<byte>, length: nat, frames: seq<byte>)
    requires |start| == 5 && |counts| == 19 && |timestamp| == 8 && mods < 0x8000_0000 && length < 0x8000_0000
    requires |x| < 128 && |y| < 128 && |z| < 128
    ensures
      var header :=
        start + (([0x0b, |x|] + x) + (([0x0b, |y|] + y) + (([0x0b, |z|] + z) + (counts +
        ([mods % 256, mods / 256 % 256, mods / 65536 % 256, mods / 16777216] + ([0x00] + (timestamp +
         [length % 256, length / 256 % 256, length / 65536 % 256, length / 16777216])))))));
      BufferHeader(header + frames) == FileHeader(header + frames) == Some(Header(mods, length, |header|))
  {
    var f := Fields(start, Some(x), Some(y), Some(z), counts, mods, None, timestamp, length);
    ShortString(x);
    ShortString(y);
    ShortString(z);
    FourBytes(mods);
    FourBytes(length);
    NinePieces(f);
    HeaderRoundTrip(f, frames);
  }
}
