/** Loops that read one field of a buffer in each turn. */
module FieldLoops {
  import opened Wrappers
  import opened Bytes
  import opened ProtoBuf
  import opened OffsetLoops

  /** What a loop does with the key, integer and data of a field; `None` if that does not come back. */
  type Effect<!S> = (S, nat, nat, Buffer) -> Option<S>

  function FieldTurn<S>(b: Buffer, effect: Effect<S>, off: nat, s: S): Option<(nat, S)>
    requires IsBuffer(b) && off < b.len
  {
    match FieldAt(b, off)
    case None => None
    case Some(t) => match effect(s, t.key, t.i, t.data) case None => None case Some(r) => Some((t.off, r))
  }

  function FieldStep<S>(b: Buffer, effect: Effect<S>): Step<S> {
    (off: nat, s: S) => if IsBuffer(b) && off < b.len then FieldTurn(b, effect, off, s) else None
  }

  /** The state in which the loop over a buffer is left. */
  function FieldsResult<S>(b: Buffer, effect: Effect<S>, s: S): Option<S> {
    Result(b.len, FieldStep(b, effect), s)
  }

  function FieldNextAt(b: Buffer, off: nat): nat {
    if IsBuffer(b) && off < b.len && FieldAt(b, off).Some? then FieldAt(b, off).value.off else 0
  }

  function FieldNext(b: Buffer): nat -> nat {
    (off: nat) => FieldNextAt(b, off)
  }

  /** Such a loop is left if and only if it is left within as many fields as the buffer has bytes, however
      the offset wraps. */
  lemma FieldsDecided<S(!new)>(b: Buffer, effect: Effect<S>, s: S, t: S)
    ensures Leaves(b.len, FieldStep(b, effect), s, t) <==> FieldsResult(b, effect, s) == Some(t)
  {
    hide FieldAt, IsBuffer;
    Decided(b.len, FieldStep(b, effect), FieldNext(b), s, t);
  }

  // ----- buffers that are lists of fields

  /** The fields of a list, one after the other. */
  function Fold<S>(effect: Effect<S>, len: nat, s: S, fields: seq<Wire>): Option<S> {
    if fields == [] then Some(s)
    else
      match effect(s, fields[0].key, fields[0].i, DataOf(fields[0], len))
      case None => None
      case Some(r) => Fold(effect, len, r, fields[1..])
  }

  function Then<S>(effect: Effect<S>, len: nat, s: Option<S>, fields: seq<Wire>): Option<S> {
    match s case None => None case Some(r) => Fold(effect, len, r, fields)
  }

  lemma {:induction false} FoldAppend<S>(effect: Effect<S>, len: nat, s: S, a: seq<Wire>, b: seq<Wire>)
    ensures Fold(effect, len, s, a + b) == Then(effect, len, Fold(effect, len, s, a), b)
  {
    if a == [] {
      assert a + b == b;
    } else {
      var r := effect(s, a[0].key, a[0].i, DataOf(a[0], len));
      assert (a + b)[1..] == a[1..] + b;
      if r.Some? {
        FoldAppend(effect, len, r.value, a[1..], b);
      }
    }
  }

  lemma FoldOne<S>(effect: Effect<S>, len: nat, s: S, w: Wire)
    ensures Fold(effect, len, s, []) == Some(s)
    ensures Fold(effect, len, s, [w]) == effect(s, w.key, w.i, DataOf(w, len))
  {
    assert [w][1..] == [];
  }

  lemma {:induction false} LoopFolds<S>(effect: Effect<S>, s: S, fields: seq<Wire>, j: nat, n: nat)
    requires AreWires(fields) && |Encoded(fields)| < UINT64 && j <= |fields| <= n + j
    ensures Left(Turns(|Encoded(fields)|, FieldStep(Whole(Encoded(fields)), effect), Place(fields, j), s, n))
         == Fold(effect, |Encoded(fields)|, s, fields[j..])
    decreases |fields| - j
  {
    hide Encoded, FieldAt, Place, AreWires;
    PlaceEnds(fields);
    if j < |fields| {
      var buf := Encoded(fields);
      ListReads(fields, j);
      var t := FieldAt(Whole(buf), Place(fields, j)).value;
      var r := effect(s, t.key, t.i, t.data);
      assert fields[j..][1..] == fields[j + 1..];
      if r.Some? {
        LoopFolds(effect, r.value, fields, j + 1, n - 1);
      }
    }
  }

  /** The loop over the bytes of a list goes through its fields. */
  lemma FieldsFold<S>(effect: Effect<S>, s: S, fields: seq<Wire>)
    requires AreWires(fields) && |Encoded(fields)| < UINT64
    ensures FieldsResult(Whole(Encoded(fields)), effect, s) == Fold(effect, |Encoded(fields)|, s, fields)
  {
    hide Encoded, FieldStep, Turns, Fold, AreWires;
    EncodedLength(fields);
    PlaceEnds(fields);
    LoopFolds(effect, s, fields, 0, |Encoded(fields)|);
    assert fields[0..] == fields;
  }

  // ----- buffers on which the offset only moves forward

  /** No length met from `off` on wraps, and no integer is longer than ten bytes. */
  predicate MovesOn(b: Buffer, off: nat)
    requires IsBuffer(b)
    decreases b.len - off
  {
    off < b.len ==>
      && FieldAt(b, off).Some?
      && var t := FieldAt(b, off).value;
         && t.off >= off + 1 + (if t.data.mem.Some? then t.data.len else 0)
         && (t.data.mem.Some? ==> IsWhole(t.data))
         && MovesOn(b, t.off)
  }

  /** On such a buffer the loop is left if and only if it comes back from every field. */
  lemma {:induction false} MovesOnEnds<S>(b: Buffer, effect: Effect<S>, off: nat, s: S, n: nat)
    requires IsBuffer(b) && MovesOn(b, off) && off + n >= b.len
    ensures Turns(b.len, FieldStep(b, effect), off, s, n) != Running
    decreases n
  {
    hide FieldAt, IsWhole, IsBuffer;
    if off < b.len {
      var t := FieldAt(b, off).value;
      var r := effect(s, t.key, t.i, t.data);
      if r.Some? {
        MovesOnEnds(b, effect, t.off, r.value, n - 1);
      }
    }
  }
}
