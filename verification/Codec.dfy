/**
 The generated codec object: setters and ownership-taking getters over its fields, the sizing pass,
 the writing pass through a moving needle, and the bounded reading pass.
 */
module Codec {
  import opened Options
  import opened Bytes
  import opened Wire
  import opened RoundTrip
  import opened Reading
  import opened Buffers
  import opened Sockets

  /** A protocol class: its fields, and per message id the fields that message carries. */
  datatype Class = Class(signature: nat, fields: seq<Kind>, messages: map<nat, seq<nat>>) {
    predicate Indexed() {
      forall id, i :: id in messages && 0 <= i < |messages[id]| ==> messages[id][i] < |fields|
    }

    function ToSchema(): Schema
      requires Indexed()
    {
      Schema(signature, map id | id in messages :: Gather(fields, messages[id]))
    }

    predicate Valid() {
      && Indexed() && ToSchema().Valid()
      && (forall id :: id in messages ==> Distinct(messages[id]))
      && (forall i :: 0 <= i < |fields| ==> WellFormed(fields[i]))
    }
  }

  predicate Distinct(idx: seq<nat>) {
    forall i, j :: 0 <= i < j < |idx| ==> idx[i] != idx[j]
  }

  predicate Within(idx: seq<nat>, n: nat) {
    forall i :: 0 <= i < |idx| ==> idx[i] < n
  }

  function Gather<T>(xs: seq<T>, idx: seq<nat>): (r: seq<T>)
    requires Within(idx, |xs|)
    ensures |r| == |idx|
  {
    seq(|idx|, i requires 0 <= i < |idx| => xs[idx[i]])
  }

  /** What zmalloc leaves in a field of this type. */
  function Blank(k: Kind): (v: Value)
    ensures Holds(k, v)
  {
    match k
    case Number(size, fixed) => if fixed.Some? then Fixed else Num(0)
    case Octets(n) => Oct(seq(n, i => 0 as byte))
    case Str(text) => if text.Some? then Fixed else Text([])
    case LongStr => Long(None)
    case Strings => List(None)
    case Hash => Table(None)
    case Chunk => Blob(None)
    case Uuid => Id(None)
    case Frame => Part(None)
    case Msg => Parts(None)
  }

  /** Zero memory, whatever the type. */
  predicate IsZeroed(v: Value) {
    match v
    case Num(n) => n == 0
    case Oct(octets) => forall i :: 0 <= i < |octets| ==> octets[i] == 0
    case Text(text) => text == []
    case Long(long) => long == None
    case List(list) => list == None
    case Table(table) => table == None
    case Blob(blob) => blob == None
    case Id(uuid) => uuid == None
    case Part(part) => part == None
    case Parts(parts) => parts == None
    case Fixed => true
  }

  /** The field after an ownership-taking getter. */
  function Unset(k: Kind): Value
    requires k.Strings? || k.Hash? || k.Chunk? || k.Uuid? || k.Frame? || k.Msg?
  {
    Blank(k)
  }

  /** Octets the sizing pass counts for one field. */
  function SizeOf(k: Kind, v: Value, retained: nat): nat
    requires Holds(k, v)
  {
    |PutField(k, v)| + Slack(k, v, retained)
  }

  /** A hash that is not set is still charged the octets it had when it was last sized. */
  function Slack(k: Kind, v: Value, retained: nat): nat
    requires Holds(k, v)
  {
    if k.Hash? && v.table.None? then retained else 0
  }

  function TotalSlack(kinds: seq<Kind>, vals: seq<Value>, retained: seq<nat>): nat
    requires HoldsAll(kinds, vals) && |retained| == |kinds|
  {
    if kinds == [] then 0
    else Slack(kinds[0], vals[0], retained[0]) + TotalSlack(kinds[1..], vals[1..], retained[1..])
  }

  /** What the sizing pass still has to count from field k of the message on. */
  function SizeFrom(kinds: seq<Kind>, vals: seq<Value>, retained: seq<nat>, k: nat): nat
    requires HoldsAll(kinds, vals) && |retained| == |kinds| && k <= |kinds|
    decreases |kinds| - k
  {
    if k == |kinds| then 0 else SizeOf(kinds[k], vals[k], retained[k]) + SizeFrom(kinds, vals, retained, k + 1)
  }

  lemma HoldsFrom(kinds: seq<Kind>, vals: seq<Value>, k: nat)
    requires HoldsAll(kinds, vals) && k <= |kinds|
    ensures HoldsAll(kinds[k..], vals[k..])
  {
  }

  /** The octets of the message's fields from field k on. */
  function PutFrom(kinds: seq<Kind>, vals: seq<Value>, k: nat): bytes
    requires HoldsAll(kinds, vals) && k <= |kinds|
  {
    HoldsFrom(kinds, vals, k);
    PutFields(kinds[k..], vals[k..])
  }

  lemma PutFromNext(kinds: seq<Kind>, vals: seq<Value>, k: nat)
    requires HoldsAll(kinds, vals) && k < |kinds|
    ensures Holds(kinds[k], vals[k])
    ensures PutFrom(kinds, vals, k) == PutField(kinds[k], vals[k]) + PutFrom(kinds, vals, k + 1)
  {
    hide PutField, Holds;
    assert kinds[k..][1..] == kinds[k + 1..] && vals[k..][1..] == vals[k + 1..];
  }

  /** Sizing counts exactly the octets written, plus what unset hashes retain. */
  lemma {:induction false} SizeFromIs(kinds: seq<Kind>, vals: seq<Value>, retained: seq<nat>, k: nat)
    requires HoldsAll(kinds, vals) && |retained| == |kinds| && k <= |kinds|
    ensures HoldsAll(kinds[k..], vals[k..])
    ensures SizeFrom(kinds, vals, retained, k)
         == |PutFrom(kinds, vals, k)| + TotalSlack(kinds[k..], vals[k..], retained[k..])
    decreases |kinds| - k
  {
    hide PutField, Holds, Slack;
    if k < |kinds| {
      SizeFromIs(kinds, vals, retained, k + 1);
      PutFromNext(kinds, vals, k);
      assert kinds[k..][1..] == kinds[k + 1..] && vals[k..][1..] == vals[k + 1..];
      assert retained[k..][1..] == retained[k + 1..];
    }
  }

  lemma SizeIs(kinds: seq<Kind>, vals: seq<Value>, retained: seq<nat>)
    requires HoldsAll(kinds, vals) && |retained| == |kinds|
    ensures SizeFrom(kinds, vals, retained, 0) == |PutFields(kinds, vals)| + TotalSlack(kinds, vals, retained)
  {
    SizeFromIs(kinds, vals, retained, 0);
    assert kinds[0..] == kinds && vals[0..] == vals && retained[0..] == retained;
  }

  lemma WholeFrom(kinds: seq<Kind>, vals: seq<Value>)
    requires HoldsAll(kinds, vals)
    ensures PutFrom(kinds, vals, 0) == PutFields(kinds, vals)
    ensures PutFrom(kinds, vals, |kinds|) == []
  {
    assert kinds[0..] == kinds && vals[0..] == vals;
  }

  /** The frames of the message's fields from field k on. */
  function PartsFrom(kinds: seq<Kind>, vals: seq<Value>, k: nat): seq<bytes>
    requires HoldsAll(kinds, vals) && k <= |kinds|
  {
    HoldsFrom(kinds, vals, k);
    PartsOf(kinds[k..], vals[k..])
  }

  lemma PartsFromNext(kinds: seq<Kind>, vals: seq<Value>, k: nat)
    requires HoldsAll(kinds, vals) && k < |kinds|
    ensures Holds(kinds[k], vals[k])
    ensures PartsFrom(kinds, vals, k) == FieldParts(kinds[k], vals[k]) + PartsFrom(kinds, vals, k + 1)
    ensures k + 1 == |kinds| ==> PartsFrom(kinds, vals, k + 1) == []
  {
    hide FieldParts, Holds;
    assert kinds[k..][1..] == kinds[k + 1..] && vals[k..][1..] == vals[k + 1..];
  }

  lemma WholePartsFrom(kinds: seq<Kind>, vals: seq<Value>)
    requires HoldsAll(kinds, vals)
    ensures PartsFrom(kinds, vals, 0) == PartsOf(kinds, vals)
    ensures PartsFrom(kinds, vals, |kinds|) == []
  {
    assert kinds[0..] == kinds && vals[0..] == vals;
  }

  lemma FieldPartsAre(k: Kind, v: Value)
    requires Holds(k, v)
    ensures k == Frame ==> v.Part? && FieldParts(k, v) == [v.part.GetOr([])]
    ensures k == Msg ==> v.Parts? && FieldParts(k, v) == v.parts.GetOr([[]])
    ensures k != Frame && k != Msg ==> FieldParts(k, v) == []
  {
  }

  predicate HasMsg(kinds: seq<Kind>) {
    kinds != [] && kinds[|kinds| - 1] == Msg
  }

  /** The frame fields of the message from field k on. */
  function FramesFrom(kinds: seq<Kind>, vals: seq<Value>, k: nat): seq<bytes>
    requires HoldsAll(kinds, vals) && k <= |kinds|
    decreases |kinds| - k
  {
    if k == |kinds| then [] else
      (if kinds[k] == Frame then [vals[k].part.GetOr([])] else []) + FramesFrom(kinds, vals, k + 1)
  }

  lemma FramesFromNext(kinds: seq<Kind>, vals: seq<Value>, k: nat)
    requires HoldsAll(kinds, vals) && k <= |kinds|
    ensures k == |kinds| ==> FramesFrom(kinds, vals, k) == []
    ensures k < |kinds| && kinds[k] != Frame ==> FramesFrom(kinds, vals, k) == FramesFrom(kinds, vals, k + 1)
    ensures k < |kinds| && kinds[k] == Frame ==> vals[k].Part?
    ensures k < |kinds| && kinds[k] == Frame ==>
      FramesFrom(kinds, vals, k) == [vals[k].part.GetOr([])] + FramesFrom(kinds, vals, k + 1)
  {
  }

  /** The frames of a msg field in last place. */
  function ContentFrames(kinds: seq<Kind>, vals: seq<Value>): seq<bytes>
    requires HoldsAll(kinds, vals)
  {
    if HasMsg(kinds) then
      var v := vals[|kinds| - 1];
      assert Holds(kinds[|kinds| - 1], v);
      v.parts.GetOr([[]])
    else []
  }

  /** The frames behind the first: the frame fields, then those of a msg field. */
  lemma PartsSplit(kinds: seq<Kind>, vals: seq<Value>)
    requires HoldsAll(kinds, vals) && WellFormedAll(kinds)
    ensures PartsOf(kinds, vals) == FramesFrom(kinds, vals, 0) + ContentFrames(kinds, vals)
  {
    PartsSplitFrom(kinds, vals, 0);
    WholePartsFrom(kinds, vals);
  }

  lemma {:induction false} PartsSplitFrom(kinds: seq<Kind>, vals: seq<Value>, k: nat)
    requires HoldsAll(kinds, vals) && k <= |kinds| && WellFormedAll(kinds)
    ensures PartsFrom(kinds, vals, k)
         == FramesFrom(kinds, vals, k) + (if k < |kinds| then ContentFrames(kinds, vals) else [])
    decreases |kinds| - k
  {
    hide FieldParts, PartsFrom, PartsOf, FramesFrom, Holds, WellFormed;
    FramesFromNext(kinds, vals, k);
    WholePartsFrom(kinds, vals);
    if k < |kinds| {
      PartsFromNext(kinds, vals, k);
      FieldPartsAre(kinds[k], vals[k]);
      PartsSplitFrom(kinds, vals, k + 1);
      FramesFromNext(kinds, vals, k + 1);
    }
  }

  lemma ContentIs(kinds: seq<Kind>, vals: seq<Value>)
    requires HoldsAll(kinds, vals)
    ensures HasMsg(kinds) ==> vals[|kinds| - 1].Parts?
    ensures HasMsg(kinds) ==> ContentFrames(kinds, vals) == vals[|kinds| - 1].parts.GetOr([[]])
    ensures !HasMsg(kinds) ==> ContentFrames(kinds, vals) == []
  {
  }

  lemma TaggedOne(frame: bytes, left: nat)
    requires left > 0
    ensures Tagged([frame], left) == [Packet(frame, left - 1 > 0)]
  {
  }

  lemma NothingTagged(left: nat)
    ensures Tagged([], left) == []
  {
  }

  lemma TaggedMessage(queue: seq<Packet>, first: bytes, frames: seq<bytes>, content: seq<bytes>)
    ensures var left := |frames| + |content|;
      queue + [Packet(first, left > 0)] + Tagged(frames, left) + Tagged(content, |content|)
      == queue + Flagged([first] + (frames + content))
  {
    var left := |frames| + |content|;
    assert [Packet(first, left > 0)] + Tagged(frames, left) + Tagged(content, |content|)
        == Flagged([first] + (frames + content));
  }

  lemma ListAppend<T>(done: seq<T>, x: T, rest: seq<T>)
    ensures done + [x] + rest == done + ([x] + rest)
  {
  }

  lemma InsertLast(pairs: seq<Pair>, p: Pair)
    ensures InsertAll(pairs + [p]) == Insert(InsertAll(pairs), p)
  {
    assert (pairs + [p])[..|pairs|] == pairs;
  }

  /** Data fields leave the further frames alone; frame fields leave the octets alone. */
  lemma PartsMatterToFrames(k: Kind, input: bytes, parts: seq<bytes>)
    ensures k.Frame? || k.Msg? ==>
      RecvField(k, input, parts) == RecvField(k, [], parts) && RecvField(k, input, parts).used == 0
    ensures !k.Frame? && !k.Msg? ==>
      RecvField(k, input, parts) == RecvField(k, input, []).(parts := parts)
  {
    hide GetNum, GetSized, GetList, GetPairs, GetNumber, CStr, InsertAll, Radix;
  }

  /** RecvFields unfolded once, in the middle of a message. */
  lemma FieldsFrom(kinds: seq<Kind>, olds: seq<Value>, k: nat, input: bytes, parts: seq<bytes>)
    requires |olds| == |kinds| && k <= |kinds|
    ensures RecvFields(kinds[k..], olds[k..], input, parts) ==
      if k == |kinds| then Outcome(Done, [], 0, parts) else
        var s := RecvField(kinds[k], input, parts);
        var v := s.update.GetOr(olds[k]);
        if !s.exit.Done? then Outcome(s.exit, [v] + olds[k + 1..], s.used, s.parts) else
          var r := RecvFields(kinds[k + 1..], olds[k + 1..], input[s.used..], s.parts);
          Outcome(r.exit, [v] + r.values, s.used + r.used, r.parts)
  {
    if k < |kinds| {
      assert kinds[k..][1..] == kinds[k + 1..] && olds[k..][1..] == olds[k + 1..];
    }
  }

  /** Part way through a message: the fields in idx hold `done` and then what they held before, as all others do. */
  ghost predicate Now(fs: seq<Value>, idx: seq<nat>, done: seq<Value>, before: seq<Value>) {
    && |fs| == |before| && |done| <= |idx| && Within(idx, |fs|) && Distinct(idx)
    && (forall j :: 0 <= j < |done| ==> fs[idx[j]] == done[j])
    && (forall i :: 0 <= i < |fs| && i !in idx[..|done|] ==> fs[i] == before[i])
  }

  lemma NowFirst(fs: seq<Value>, idx: seq<nat>)
    requires Within(idx, |fs|) && Distinct(idx)
    ensures Now(fs, idx, [], fs)
  {
  }

  lemma NowNext(fs: seq<Value>, idx: seq<nat>, done: seq<Value>, before: seq<Value>, v: Value)
    requires Now(fs, idx, done, before) && |done| < |idx|
    ensures Within(idx, |fs|) && Within(idx, |before|) && fs[idx[|done|]] == Gather(before, idx)[|done|]
    ensures Now(fs[idx[|done|] := v], idx, done + [v], before)
  {
    InPrefix(idx, |done|);
  }

  lemma NowLast(fs: seq<Value>, idx: seq<nat>, done: seq<Value>, before: seq<Value>)
    requires Now(fs, idx, done, before) && |done| == |idx|
    ensures |fs| == |before| && Within(idx, |fs|) && Gather(fs, idx) == done
    ensures forall i :: 0 <= i < |fs| && i !in idx ==> fs[i] == before[i]
  {
    assert idx[..|done|] == idx;
  }

  /** A read that fails at one field leaves the later ones alone. */
  lemma NowFailed(fs: seq<Value>, idx: seq<nat>, done: seq<Value>, before: seq<Value>, v: Value)
    requires Now(fs, idx, done + [v], before)
    ensures |fs| == |before| && Within(idx, |fs|)
    ensures Gather(fs, idx) == done + ([v] + Gather(before, idx)[|done| + 1..])
    ensures forall i :: 0 <= i < |fs| && i !in idx ==> fs[i] == before[i]
  {
    forall j | |done| < j < |idx| ensures fs[idx[j]] == before[idx[j]] {
      assert idx[j] !in idx[..|done| + 1];
    }
  }

  lemma GatherAt<T>(xs: seq<T>, idx: seq<nat>, k: nat)
    requires Within(idx, |xs|) && k < |idx|
    ensures Gather(xs, idx)[k] == xs[idx[k]]
  {
  }

  lemma InPrefix(idx: seq<nat>, k: nat)
    requires k < |idx|
    ensures forall i :: i in idx[..k + 1] <==> i in idx[..k] || i == idx[k]
  {
    assert idx[..k + 1] == idx[..k] + [idx[k]];
  }

  // The sizing pass part way: retained sizes still to be used, and the tables sized so far.

  ghost predicate Kept(hashBytes: seq<nat>, idx: seq<nat>, kept: seq<nat>, k: nat) {
    |kept| == |idx| && Within(idx, |hashBytes|) && forall j :: k <= j < |idx| ==> hashBytes[idx[j]] == kept[j]
  }

  /** Sizing the fields in idx leaves, for each hash that is set, its table; other entries stay. */
  ghost predicate SizedAll(
      kinds: seq<Kind>, fs: seq<Value>, idx: seq<nat>, before: seq<seq<Pair>>, now: seq<seq<Pair>>)
  {
    && |before| == |now| == |fs| == |kinds|
    && forall i :: 0 <= i < |fs| ==> now[i] == LastSized(kinds[i], fs[i], i in idx, before[i])
  }

  function LastSized(k: Kind, v: Value, sizedNow: bool, before: seq<Pair>): seq<Pair> {
    if sizedNow && k.Hash? && v.Table? && v.table.Some? then v.table.value else before
  }

  ghost predicate SizedUpTo(
      kinds: seq<Kind>, fs: seq<Value>, idx: seq<nat>, k: nat, before: seq<seq<Pair>>, now: seq<seq<Pair>>)
  {
    k <= |idx| && SizedAll(kinds, fs, idx[..k], before, now)
  }

  lemma SizingStarts(kinds: seq<Kind>, fs: seq<Value>, hashBytes: seq<nat>, sized: seq<seq<Pair>>, idx: seq<nat>)
    requires |kinds| == |fs| == |hashBytes| == |sized| && Within(idx, |fs|)
    ensures Kept(hashBytes, idx, Gather(hashBytes, idx), 0)
    ensures SizedUpTo(kinds, fs, idx, 0, sized, sized)
  {
  }

  lemma SizingGoesOn(
      kinds: seq<Kind>, fs: seq<Value>, idx: seq<nat>, k: nat, kept: seq<nat>,
      hb: seq<nat>, hb': seq<nat>, before: seq<seq<Pair>>, sz: seq<seq<Pair>>, sz': seq<seq<Pair>>)
    requires k < |idx| && Distinct(idx) && Kept(hb, idx, kept, k) && SizedUpTo(kinds, fs, idx, k, before, sz)
    requires |hb'| == |hb| == |fs| && Within(idx, |fs|)
    requires forall j :: 0 <= j < |hb| && j != idx[k] ==> hb'[j] == hb[j]
    requires sz' == sz[idx[k] := LastSized(kinds[idx[k]], fs[idx[k]], true, sz[idx[k]])]
    ensures hb[idx[k]] == kept[k]
    ensures Kept(hb', idx, kept, k + 1) && SizedUpTo(kinds, fs, idx, k + 1, before, sz')
  {
    InPrefix(idx, k);
    assert forall j :: 0 <= j < k ==> idx[j] != idx[k];
  }

  lemma SizingEnds(kinds: seq<Kind>, fs: seq<Value>, idx: seq<nat>, before: seq<seq<Pair>>, now: seq<seq<Pair>>)
    requires SizedUpTo(kinds, fs, idx, |idx|, before, now)
    ensures SizedAll(kinds, fs, idx, before, now)
  {
    assert idx[..|idx|] == idx;
  }

  class Object {
    const cls: Class
    var id: nat
    var fields: seq<Value>
    var hashBytes: seq<nat>
    /** The table each hash field held when it was last sized. */
    ghost var sized: seq<seq<Pair>>

    ghost predicate Valid()
      reads this
    {
      && cls.Valid()
      && HoldsAll(cls.fields, fields)
      && |hashBytes| == |sized| == |fields|
      && forall i :: 0 <= i < |fields| ==> hashBytes[i] == |PutTable(sized[i])|
    }

    constructor (cls: Class)
      requires cls.Valid()
      ensures Valid() && this.cls == cls && id == 0
      ensures forall i :: 0 <= i < |fields| ==> fields[i] == Blank(cls.fields[i]) && sized[i] == []
      ensures forall i :: 0 <= i < |fields| ==> IsZeroed(fields[i])
    {
      this.cls := cls;
      id := 0;
      fields := seq(|cls.fields|, i requires 0 <= i < |cls.fields| => Blank(cls.fields[i]));
      hashBytes := seq(|cls.fields|, _ => 0);
      sized := seq(|cls.fields|, _ => []);
    }

    method SetId(id: nat)
      requires Valid()
      modifies this`id
      ensures Valid() && this.id == id
    {
      this.id := id;
    }

    /** Setters other than the one for a char[256] field. */
    method Set(i: nat, v: Value)
      requires Valid() && i < |fields| && Holds(cls.fields[i], v)
      modifies this`fields
      ensures Valid() && fields == old(fields)[i := v]
    {
      fields := fields[i := v];
    }

    /** strncpy (field, value, 255) and a closing NUL. */
    method SetText(i: nat, s: bytes)
      requires Valid() && i < |fields| && cls.fields[i] == Str(None) && NulFree(s)
      modifies this`fields
      ensures Valid() && fields == old(fields)[i := Text(Shortened(s))]
    {
      fields := fields[i := Text(Shortened(s))];
    }

    /** Get a field and transfer ownership to the caller. */
    method Take(i: nat) returns (v: Value)
      requires Valid() && i < |fields|
      requires var k := cls.fields[i]; k.Strings? || k.Hash? || k.Chunk? || k.Uuid? || k.Frame? || k.Msg?
      modifies this`fields
      ensures Valid() && v == old(fields[i]) && fields == old(fields)[i := Unset(cls.fields[i])]
      ensures fields[i] in {List(None), Table(None), Blob(None), Id(None), Part(None), Parts(None)}
    {
      v := fields[i];
      fields := fields[i := Unset(cls.fields[i])];
    }

    // -------------------------------------------------------------- sizing pass

    /** The fields of the current message; a message without a case in the switch has none. */
    ghost function Idx(): (idx: seq<nat>)
      requires Valid()
      reads this
      ensures |fields| == |cls.fields| && Within(idx, |cls.fields|) && Distinct(idx)
    {
      if id in cls.messages then cls.messages[id] else []
    }

    ghost function Kinds(): (kinds: seq<Kind>)
      requires Valid()
      reads this
      ensures |kinds| == |Idx()| && WellFormedAll(kinds)
    {
      assert id in cls.messages ==> id in cls.ToSchema().messages;
      Gather(cls.fields, Idx())
    }

    ghost function Values(): (vals: seq<Value>)
      requires Valid()
      reads this
      ensures HoldsAll(Kinds(), vals)
    {
      Gather(fields, Idx())
    }

    method SizeList(l: seq<bytes>) returns (n: nat)
      ensures n == |PutList(l)|
    {
      n := 0;
      for j := 0 to |l|
        invariant n + |PutList(l[j..])| == |PutList(l)|
      {
        assert l[j..][0] == l[j] && l[j..][1..] == l[j + 1..];
        n := n + 4 + |l[j]|;
      }
    }

    method SizeTable(i: nat, t: seq<Pair>)
      requires Valid() && i < |fields|
      modifies this`hashBytes, this`sized
      ensures Valid() && sized == old(sized)[i := t] && hashBytes == old(hashBytes)[i := |PutTable(t)|]
    {
      hashBytes := hashBytes[i := 0];
      for j := 0 to |t|
        invariant |hashBytes| == |old(hashBytes)| && sized == old(sized)
        invariant hashBytes == old(hashBytes)[i := hashBytes[i]]
        invariant hashBytes[i] + |PutTable(t[j..])| == |PutTable(t)|
      {
        assert t[j..][0] == t[j] && t[j..][1..] == t[j + 1..];
        hashBytes := hashBytes[i := hashBytes[i] + 1 + |t[j].key|];
        hashBytes := hashBytes[i := hashBytes[i] + 4 + |t[j].value|];
      }
      sized := sized[i := t];
    }

    method SizeField(i: nat) returns (n: nat)
      requires Valid() && i < |fields|
      modifies this`hashBytes, this`sized
      ensures Valid()
      ensures n == SizeOf(cls.fields[i], fields[i], old(hashBytes[i]))
      ensures sized == old(sized)[i := LastSized(cls.fields[i], fields[i], true, old(sized[i]))]
      ensures forall j :: 0 <= j < |fields| && j != i ==> hashBytes[j] == old(hashBytes[j])
    {
      hide PutTable, PutList, DistinctKeys, NulFree, Octet;
      assert sized[i := sized[i]] == sized;
      match cls.fields[i]
      case Number(size, _) => n := size;
      case Octets(size) => n := size;
      case Str(text) => n := 1 + |if text.Some? then text.value else fields[i].text|;
      case LongStr =>
        n := 4;
        if fields[i].long.Some? { n := n + |fields[i].long.value|; }
      case Strings =>
        n := 4;
        if fields[i].list.Some? {
          var m := SizeList(fields[i].list.value);
          n := n + m;
        }
      case Hash =>
        n := 4;
        if fields[i].table.Some? { SizeTable(i, fields[i].table.value); }
        n := n + hashBytes[i];
      case Chunk =>
        n := 4;
        if fields[i].blob.Some? { n := n + |fields[i].blob.value|; }
      case Uuid => n := UUID_LEN;
      case Frame => n := 0;
      case Msg => n := 0;
    }

    /** calculate_frame_size. */
    method FrameSize() returns (size: nat)
      requires Valid()
      modifies this`hashBytes, this`sized
      ensures Valid()
      ensures size == 3 + |PutFields(Kinds(), Values())|
                        + TotalSlack(Kinds(), Values(), Gather(old(hashBytes), Idx()))
      ensures SizedAll(cls.fields, fields, Idx(), old(sized), sized)
    {
      hide PutField, WellFormed, WellFormedAll, Slack, PutTable, PutFields, TotalSlack, SizeOf, Holds, PutFrom,
        HoldsAll, Class.Valid, Class.Indexed, Class.ToSchema, Gather, Distinct, Kept, SizedUpTo, SizedAll;
      size := 2 + 1;
      var idx := if id in cls.messages then cls.messages[id] else [];
      ghost var kinds, vals, kept := Kinds(), Values(), Gather(hashBytes, idx);
      SizingStarts(cls.fields, fields, hashBytes, sized, idx);
      for k := 0 to |idx|
        invariant Valid()
        invariant size + SizeFrom(kinds, vals, kept, k) == 3 + SizeFrom(kinds, vals, kept, 0)
        invariant Kept(hashBytes, idx, kept, k)
        invariant SizedUpTo(cls.fields, fields, idx, k, old(sized), sized)
      {
        ghost var hb, sz := hashBytes, sized;
        var n := SizeField(idx[k]);
        size := size + n;
        GatherAt(cls.fields, idx, k);
        GatherAt(fields, idx, k);
        SizingGoesOn(cls.fields, fields, idx, k, kept, hb, hashBytes, old(sized), sz, sized);
      }
      SizingEnds(cls.fields, fields, idx, old(sized), sized);
      SizeIs(kinds, vals, kept);
    }

    // -------------------------------------------------------------- writing pass

    method WriteList(w: Writer, l: seq<bytes>)
      requires w.Valid() && w.needle + |PutList(l)| <= w.data.Length
      modifies w`needle, w.data
      ensures w.Valid() && w.Written() == old(w.Written()) + PutList(l)
    {
      ghost var start := w.Written();
      for j := 0 to |l|
        invariant w.Valid() && |PutList(l[j..])| <= w.data.Length - w.needle
        invariant w.Written() + PutList(l[j..]) == start + PutList(l)
      {
        ListFrom(l, j);
        ghost var mid := w.Written();
        w.PutText(l[j], 4);
        assert mid + PutSized(l[j], 4) + PutList(l[j + 1..]) == mid + (PutSized(l[j], 4) + PutList(l[j + 1..]));
      }
    }

    method WriteTable(w: Writer, t: seq<Pair>)
      requires w.Valid() && w.needle + |PutTable(t)| <= w.data.Length
      modifies w`needle, w.data
      ensures w.Valid() && w.Written() == old(w.Written()) + PutTable(t)
    {
      hide PutNumber;
      ghost var start := w.Written();
      for j := 0 to |t|
        invariant w.Valid() && |PutTable(t[j..])| <= w.data.Length - w.needle
        invariant w.Written() + PutTable(t[j..]) == start + PutTable(t)
      {
        TableFrom(t, j);
        ghost var mid := w.Written();
        w.PutText(t[j].key, 1);
        w.PutText(t[j].value, 4);
        assert mid + PutSized(t[j].key, 1) + PutSized(t[j].value, 4) + PutTable(t[j + 1..])
            == mid + (PutPair(t[j]) + PutTable(t[j + 1..]));
      }
    }

    /** The encode_frame case for one field. */
    method WriteField(i: nat, w: Writer)
      requires Valid() && i < |fields| && w.Valid()
      requires w.needle + |PutField(cls.fields[i], fields[i])| <= w.data.Length
      modifies w`needle, w.data
      ensures w.Valid() && w.Written() == old(w.Written()) + PutField(cls.fields[i], fields[i])
    {
      hide PutNumber, PutList, PutTable, DistinctKeys, NulFree, Class.Indexed, Class.ToSchema, Schema.Valid;
      match cls.fields[i]
      case Number(size, fixed) => w.PutNum(if fixed.Some? then fixed.value else fields[i].n, size);
      case Octets(_) => w.PutOctets(fields[i].octets);
      case Str(text) => w.PutText(if text.Some? then text.value else fields[i].text, 1);
      case LongStr =>
        if fields[i].long.Some? { w.PutText(fields[i].long.value, 4); } else { w.PutNum(0, 4); }
      case Strings =>
        if fields[i].list.Some? {
          w.PutNum(|fields[i].list.value|, 4);
          WriteList(w, fields[i].list.value);
        } else {
          w.PutNum(0, 4);
        }
      case Hash =>
        if fields[i].table.Some? {
          w.PutNum(|fields[i].table.value|, 4);
          WriteTable(w, fields[i].table.value);
        } else {
          w.PutNum(0, 4);
        }
      case Chunk =>
        if fields[i].blob.Some? {
          w.PutNum(|fields[i].blob.value|, 4);
          w.PutOctets(fields[i].blob.value);
        } else {
          w.PutNum(0, 4);
        }
      case Uuid =>
        w.PutOctets(if fields[i].uuid.Some? then fields[i].uuid.value else Bytes.PutNumber(0, UUID_LEN));
      case Frame =>
      case Msg =>
    }

    /** The first frame as it stands: header, then the fields of the current message. */
    ghost function Encoding(): bytes
      requires Valid()
      reads this
    {
      cls.ToSchema().Header(id) + PutFields(Kinds(), Values())
    }

    /** encode_frame behind the header. */
    method WriteFields(w: Writer)
      requires Valid() && w.Valid() && w.needle + |PutFields(Kinds(), Values())| <= w.data.Length
      modifies w`needle, w.data
      ensures w.Valid() && w.Written() == old(w.Written()) + PutFields(Kinds(), Values())
    {
      hide PutNumber, PutField, WellFormed, WellFormedAll, PutFields, Holds, PutFrom, HoldsAll,
        Class.Indexed, Class.ToSchema, Class.Valid, Gather;
      var idx := if id in cls.messages then cls.messages[id] else [];
      ghost var kinds, vals, start := Kinds(), Values(), w.Written();
      WholeFrom(kinds, vals);
      for k := 0 to |idx|
        invariant w.Valid()
        invariant w.Written() + PutFrom(kinds, vals, k) == start + PutFields(kinds, vals)
      {
        PutFromNext(kinds, vals, k);
        GatherAt(cls.fields, idx, k);
        GatherAt(fields, idx, k);
        Join(w.Written(), PutField(kinds[k], vals[k]), PutFrom(kinds, vals, k + 1));
        WriteField(idx[k], w);
      }
    }

    /**
     `encode`: size a frame, then write into it. The needle ends at the end of the encoding, inside the
     frame; what is left over is what unset hashes retain.
     */
    method Encode() returns (w: Writer)
      requires Valid()
      modifies this`hashBytes, this`sized
      ensures Valid() && fresh(w) && fresh(w.data) && w.Valid()
      ensures w.Written() == Encoding()
      ensures w.data.Length - w.needle == TotalSlack(Kinds(), Values(), Gather(old(hashBytes), Idx()))
      ensures SizedAll(cls.fields, fields, Idx(), old(sized), sized)
    {
      hide PutNumber, PutField, WellFormed, WellFormedAll, Slack, PutTable, PutFields, TotalSlack, Holds, HoldsAll,
        Class.Indexed;
      var size := FrameSize();
      w := new Writer(size);
      w.PutNum(0xAAA0 + cls.signature, 2);
      w.PutNum(id, 1);
      WriteFields(w);
    }

    // -------------------------------------------------------------- sending

    /** The frame count encode_frame keeps: one, one more per frame field, and the size of the msg field. */
    method CountFrames() returns (nbrFrames: nat, haveMsg: bool)
      requires Valid()
      ensures nbrFrames == 1 + |PartsOf(Kinds(), Values())|
      ensures haveMsg == HasMsg(Kinds())
    {
      hide PutField, WellFormed, Holds, HoldsAll, PartsFrom, PartsOf, FieldParts, Class.Indexed;
      nbrFrames, haveMsg := 1, false;
      var idx := if id in cls.messages then cls.messages[id] else [];
      ghost var kinds, vals := Kinds(), Values();
      WholePartsFrom(kinds, vals);
      for k := 0 to |idx|
        invariant nbrFrames + |PartsFrom(kinds, vals, k)| == 1 + |PartsOf(kinds, vals)|
        invariant haveMsg == (k == |idx| && HasMsg(kinds))
      {
        PartsFromNext(kinds, vals, k);
        FieldPartsAre(kinds[k], vals[k]);
        if cls.fields[idx[k]] == Frame {
          nbrFrames := nbrFrames + 1;
        } else if cls.fields[idx[k]] == Msg {
          nbrFrames := nbrFrames + |fields[idx[k]].parts.GetOr([[]])|;
          haveMsg := true;
        }
      }
    }

    /** Send the frame fields in order, counting down the frames still to send. */
    method SendFrameFields(output: Socket, nbrFrames: nat) returns (left: nat)
      requires Valid() && |FramesFrom(Kinds(), Values(), 0)| <= nbrFrames
      modifies output`queue
      ensures var frames := FramesFrom(Kinds(), Values(), 0);
        left == nbrFrames - |frames| && output.queue == old(output.queue) + Tagged(frames, nbrFrames)
    {
      hide WellFormed, WellFormedAll, Holds, HoldsAll, Class.Valid, Class.Indexed, FramesFrom, Tagged;
      NothingTagged(nbrFrames);
      left := nbrFrames;
      var idx := if id in cls.messages then cls.messages[id] else [];
      ghost var kinds, vals := Kinds(), Values();
      ghost var all, sent: seq<bytes> := FramesFrom(kinds, vals, 0), [];
      FramesFromNext(kinds, vals, 0);
      for k := 0 to |idx|
        invariant sent + FramesFrom(kinds, vals, k) == all && left == nbrFrames - |sent|
        invariant output.queue == old(output.queue) + Tagged(sent, nbrFrames)
        invariant k == |idx| ==> FramesFrom(kinds, vals, k) == []
      {
        FramesFromNext(kinds, vals, k);
        FramesFromNext(kinds, vals, k + 1);
        if cls.fields[idx[k]] == Frame {
          var part := fields[idx[k]].part.GetOr([]);
          assert sent + FramesFrom(kinds, vals, k) == (sent + [part]) + FramesFrom(kinds, vals, k + 1);
          left := left - 1;
          output.Send(part, left > 0);
          TaggedSplit(sent, [part], nbrFrames);
          TaggedOne(part, left + 1);
          sent := sent + [part];
        }
      }
      assert sent == sent + FramesFrom(kinds, vals, |idx|);
    }

    /** Send the msg field's frames; an unset one goes out as one empty, last frame. */
    method SendContent(output: Socket, content: Option<seq<bytes>>, nbrFrames: nat)
      requires nbrFrames == |content.GetOr([[]])|
      modifies output`queue
      ensures output.queue == old(output.queue) + Tagged(content.GetOr([[]]), nbrFrames)
    {
      if content.Some? {
        var frames := content.value;
        for j := 0 to |frames|
          invariant output.queue == old(output.queue) + Tagged(frames[..j], nbrFrames)
        {
          output.Send(frames[j], nbrFrames - 1 - j > 0);
          TaggedSplit(frames[..j], [frames[j]], nbrFrames);
          assert frames[..j + 1] == frames[..j] + [frames[j]];
        }
        assert frames[..|frames|] == frames;
      } else {
        output.Send([], false);
      }
    }

    /** The tail of `send`: the msg field of the current message, if it has one. */
    method SendMsgField(output: Socket, haveMsg: bool, nbrFrames: nat)
      requires Valid() && haveMsg == HasMsg(Kinds()) && nbrFrames == |ContentFrames(Kinds(), Values())|
      modifies output`queue
      ensures output.queue == old(output.queue) + Tagged(ContentFrames(Kinds(), Values()), nbrFrames)
    {
      hide WellFormed, WellFormedAll, Holds, HoldsAll, Class.Valid, Class.Indexed, ContentFrames, Tagged;
      ContentIs(Kinds(), Values());
      if haveMsg {
        var idx := cls.messages[id];
        SendContent(output, fields[idx[|idx| - 1]].parts, nbrFrames);
      } else {
        NothingTagged(nbrFrames);
      }
    }

    /** Everything `send` does once the first frame is encoded. */
    method SendFrames(output: Socket, first: bytes)
      requires Valid()
      modifies output`queue
      ensures output.queue == old(output.queue) + Flagged([first] + PartsOf(Kinds(), Values()))
    {
      hide WellFormed, WellFormedAll, Holds, HoldsAll, Class.Valid, Class.Indexed, FramesFrom, PartsOf,
        ContentFrames, Tagged, Flagged;
      ghost var frames, content := FramesFrom(Kinds(), Values(), 0), ContentFrames(Kinds(), Values());
      PartsSplit(Kinds(), Values());
      var nbrFrames, haveMsg := CountFrames();
      nbrFrames := nbrFrames - 1;
      output.Send(first, nbrFrames > 0);
      var left := SendFrameFields(output, nbrFrames);
      SendMsgField(output, haveMsg, left);
      TaggedMessage(old(output.queue), first, frames, content);
    }

    /**
     `send`: every frame of the message goes out in order, MORE on each but the last. The first frame is
     the encoding followed by whatever the slack of the allocated frame holds.
     */
    method Send(output: Socket) returns (ghost first: bytes)
      requires Valid()
      modifies this`hashBytes, this`sized, output`queue
      ensures Valid()
      ensures Encoding() <= first
      ensures |first| - |Encoding()| == TotalSlack(Kinds(), Values(), Gather(old(hashBytes), Idx()))
      ensures output.queue == old(output.queue) + Flagged([first] + PartsOf(Kinds(), Values()))
      ensures SizedAll(cls.fields, fields, Idx(), old(sized), sized)
    {
      var w := Encode();
      first := w.data[..];
      SendFrames(output, w.data[..]);
    }

    // -------------------------------------------------------------- reading pass

    method ReadList(r: Reader, count: nat) returns (exit: Exit, list: seq<bytes>, ghost turns: nat)
      requires r.Valid()
      modifies r`needle
      ensures r.Valid() && turns == ListTurns(count, old(r.Rest()))
      ensures var g := GetList(count, old(r.Rest()));
        exit == g.exit && list == g.value && r.needle == old(r.needle) + g.used
    {
      hide GetList, GetSized;
      exit, list, turns := Done, [], 0;
      var left: nat := count;
      assert [] + GetList(count, r.Rest()).value == GetList(count, r.Rest()).value;
      while left > 0 && exit.Done?
        invariant left <= count && r.Valid() && r.needle >= old(r.needle)
        invariant exit.Done? ==>
          var g := GetList(left, r.Rest());
          GetList(count, old(r.Rest())) == Got(g.exit, list + g.value, r.needle - old(r.needle) + g.used)
        invariant ListTurns(count, old(r.Rest())) == turns + (if exit.Done? then ListTurns(left, r.Rest()) else 0)
        invariant !exit.Done? ==> GetList(count, old(r.Rest())) == Got(exit, list, r.needle - old(r.needle))
        decreases left, exit.Done?
      {
        ListTurn(left, r.Rest());
        turns := turns + 1;
        ghost var rest, was := r.Rest(), r.needle;
        var ok, raw := r.GetText(4);
        if ok {
          assert rest[r.needle - was..] == r.Rest();
          left := left - 1;
          ListAppend(list, CStr(raw), GetList(left, r.Rest()).value);
          list := list + [CStr(raw)];
        } else {
          assert list + [] == list;
          exit := Truncated;
        }
      }
      ListTurn(left, r.Rest());
      assert list + [] == list;
    }

    /** GET_STRING and GET_LONGSTR of one turn of the hash loop. */
    method ReadPair(r: Reader) returns (ok: bool, p: Pair)
      requires r.Valid()
      modifies r`needle
      ensures r.Valid()
      ensures var g := GetPair(old(r.Rest()));
        ok == g.exit.Done? && r.needle == old(r.needle) + g.used && (ok ==> p == g.value)
      ensures !ok ==> GetPair(old(r.Rest())).exit == Truncated
    {
      hide GetSized;
      p := Pair([], []);
      ghost var rest, was := r.Rest(), r.needle;
      var key, value;
      ok, key := r.GetText(1);
      if ok {
        assert rest[r.needle - was..] == r.Rest();
        ok, value := r.GetText(4);
        if ok { p := Pair(CStr(key), CStr(value)); }
      }
    }

    method ReadTable(r: Reader, count: nat) returns (exit: Exit, table: seq<Pair>, ghost turns: nat)
      requires r.Valid()
      modifies r`needle
      ensures r.Valid() && turns == PairTurns(count, old(r.Rest()))
      ensures var g := GetPairs(count, old(r.Rest()));
        exit == g.exit && table == InsertAll(g.value) && r.needle == old(r.needle) + g.used
    {
      hide GetPairs, GetPair, HasKey;
      exit, table, turns := Done, [], 0;
      var left: nat := count;
      ghost var pairs: seq<Pair> := [];
      assert [] + GetPairs(count, r.Rest()).value == GetPairs(count, r.Rest()).value;
      while left > 0 && exit.Done?
        invariant left <= count && r.Valid() && r.needle >= old(r.needle) && table == InsertAll(pairs)
        invariant exit.Done? ==>
          var g := GetPairs(left, r.Rest());
          GetPairs(count, old(r.Rest())) == Got(g.exit, pairs + g.value, r.needle - old(r.needle) + g.used)
        invariant PairTurns(count, old(r.Rest())) == turns + (if exit.Done? then PairTurns(left, r.Rest()) else 0)
        invariant !exit.Done? ==> GetPairs(count, old(r.Rest())) == Got(exit, pairs, r.needle - old(r.needle))
        decreases left, exit.Done?
      {
        PairsTurn(left, r.Rest());
        turns := turns + 1;
        ghost var rest, was := r.Rest(), r.needle;
        var ok, p := ReadPair(r);
        if ok {
          assert rest[r.needle - was..] == r.Rest();
          left := left - 1;
          ListAppend(pairs, p, GetPairs(left, r.Rest()).value);
          InsertLast(pairs, p);
          table := Insert(table, p);
          pairs := pairs + [p];
        } else {
          assert pairs + [] == pairs;
          exit := Truncated;
        }
      }
      PairsTurn(left, r.Rest());
      assert pairs + [] == pairs;
    }

    /** The frames of the message still on the socket, and whether the last one received announced them. */
    static ghost predicate Pending(input: Socket, parts: seq<bytes>, later: seq<Packet>)
      reads input
    {
      input.queue == Flagged(parts) + later && input.rcvmore == (parts != [])
    }

    /** The recv cases for fields of bounded size. */
    method ReadData(i: nat, r: Reader) returns (exit: Exit)
      requires Valid() && i < |fields| && r.Valid()
      requires var k := cls.fields[i]; k.Number? || k.Octets? || k.Str? || k.LongStr? || k.Chunk? || k.Uuid?
      modifies this`fields, r`needle
      ensures r.Valid()
      ensures var s := RecvField(cls.fields[i], old(r.Rest()), []);
        exit == s.exit && r.needle == old(r.needle) + s.used
        && fields == old(fields)[i := s.update.GetOr(old(fields[i]))]
    {
      hide GetNumber, Class.Valid, DistinctKeys, NulFree, CStr;
      exit := Done;
      assert fields[i := fields[i]] == fields && Holds(cls.fields[i], fields[i]);
      ghost var rest := r.Rest();
      var ok, n, raw := true, 0, [];
      match cls.fields[i] {
        case Number(size, fixed) =>
          ok, n := r.GetNumeral(size);
          if !ok { exit := Truncated; }
          else if fixed.None? { fields := fields[i := Num(n)]; }
          else if n != fixed.value { exit := Rejected; }
        case Octets(length) =>
          ok, raw := r.GetOctets(length);
          if ok { fields := fields[i := Oct(raw)]; } else { exit := Truncated; }
        case Str(text) =>
          ok, raw := r.GetText(1);
          if !ok { exit := Truncated; }
          else if text.None? { fields := fields[i := Text(CStr(raw))]; }
          else if CStr(raw) != text.value { exit := Rejected; }
        case LongStr =>
          ok, raw := r.GetText(4);
          if ok { fields := fields[i := Long(Some(CStr(raw)))]; } else { exit := Truncated; }
        case Chunk =>
          ok, n := r.GetNumeral(4);
          if !ok {
            exit := Truncated;
          } else {
            ok, raw := r.GetOctets(n);
            assert ok ==> rest[4..][..n] == rest[4..4 + n];
            if ok { fields := fields[i := Blob(Some(raw))]; } else { exit := Rejected; }
          }
        case Uuid =>
          ok, raw := r.GetOctets(UUID_LEN);
          if ok { fields := fields[i := Id(Some(raw))]; } else { exit := Rejected; }
      }
    }

    /** The recv cases for a list and a hash: the count, then the loop. */
    method ReadCollection(i: nat, r: Reader) returns (exit: Exit)
      requires Valid() && i < |fields| && r.Valid() && (cls.fields[i].Strings? || cls.fields[i].Hash?)
      modifies this`fields, r`needle
      ensures r.Valid()
      ensures var s := RecvField(cls.fields[i], old(r.Rest()), []);
        exit == s.exit && r.needle == old(r.needle) + s.used
        && fields == old(fields)[i := s.update.GetOr(old(fields[i]))]
    {
      hide GetNumber, GetList, GetPairs, InsertAll, Class.Valid, Holds;
      exit := Done;
      assert fields[i := fields[i]] == fields;
      ghost var rest, was := r.Rest(), r.needle;
      var ok, count := r.GetNumeral(4);
      if !ok {
        exit := Truncated;
      } else {
        assert rest[r.needle - was..] == r.Rest();
        if cls.fields[i].Strings? {
          var list;
          ghost var turns;
          exit, list, turns := ReadList(r, count);
          fields := fields[i := List(Some(list))];
        } else {
          var table;
          ghost var turns;
          exit, table, turns := ReadTable(r, count);
          fields := fields[i := Table(Some(table))];
        }
      }
    }

    /** The recv cases that take frames off the socket. */
    method ReadFrames(i: nat, input: Socket, ghost parts: seq<bytes>, ghost later: seq<Packet>)
      returns (exit: Exit)
      requires Valid() && i < |fields| && (cls.fields[i].Frame? || cls.fields[i].Msg?)
      requires Pending(input, parts, later)
      modifies this`fields, input
      ensures var s := RecvField(cls.fields[i], [], parts);
        && exit == s.exit && Pending(input, s.parts, later)
        && fields == old(fields)[i := s.update.GetOr(old(fields[i]))]
    {
      hide Class.Valid, Holds;
      exit := Done;
      assert fields[i := fields[i]] == fields;
      if cls.fields[i].Frame? {
        if !input.rcvmore {
          exit := Rejected;
        } else {
          assert Flagged(parts)[1..] == Flagged(parts[1..]);
          var part := input.Recv();
          fields := fields[i := Part(Some(part))];
        }
      } else {
        var content := [];
        if input.rcvmore {
          content := input.RecvAll(parts, later);
        }
        assert Flagged([]) + later == later;
        fields := fields[i := Parts(Some(content))];
      }
    }

    /** The recv case for one field. */
    method ReadField(i: nat, r: Reader, input: Socket, ghost parts: seq<bytes>, ghost later: seq<Packet>)
      returns (exit: Exit)
      requires Valid() && i < |fields| && r.Valid() && Pending(input, parts, later)
      modifies this`fields, r`needle, input
      ensures Valid() && r.Valid()
      ensures var s := RecvField(cls.fields[i], old(r.Rest()), parts);
        && exit == s.exit && r.needle == old(r.needle) + s.used && Pending(input, s.parts, later)
        && fields == old(fields)[i := s.update.GetOr(old(fields[i]))]
    {
      hide Holds, Class.Indexed, Class.ToSchema, RecvField, Pending, PutTable, WellFormed;
      var k := cls.fields[i];
      FieldRead(k, r.Rest(), parts);
      PartsMatterToFrames(k, r.Rest(), parts);
      if k.Strings? || k.Hash? {
        exit := ReadCollection(i, r);
      } else if k.Frame? || k.Msg? {
        exit := ReadFrames(i, input, parts, later);
      } else {
        exit := ReadData(i, r);
      }
    }

    /** What every message's fields hold now, as the receive specification takes it. */
    ghost function Olds(): (olds: map<nat, seq<Value>>)
      requires Valid()
      reads this
      ensures Wire.Contents(cls.ToSchema(), olds)
      ensures forall id :: id in cls.messages ==> id in olds && olds[id] == Gather(fields, cls.messages[id])
    {
      map id | id in cls.messages :: Gather(fields, cls.messages[id])
    }

    /** The recv cases of a whole message, field by field, leaving at the first that fails. */
    method ReadFields(r: Reader, input: Socket, ghost parts: seq<bytes>, ghost later: seq<Packet>)
      returns (exit: Exit)
      requires Valid() && r.Valid() && Pending(input, parts, later) && id in cls.messages
      modifies this`fields, r`needle, input
      ensures Valid() && r.Valid()
      ensures var o := RecvFields(Kinds(), old(Values()), old(r.Rest()), parts);
        && exit == o.exit && r.needle == old(r.needle) + o.used && Pending(input, o.parts, later)
        && Values() == o.values
      ensures forall i :: 0 <= i < |fields| && i !in Idx() ==> fields[i] == old(fields[i])
    {
      hide RecvField, RecvFields, Pending, Holds, HoldsAll, Class.Valid, Class.Indexed, Class.ToSchema, WellFormed,
        WellFormedAll, PutTable, Valid, Now, Gather, Distinct;
      var idx := cls.messages[id];
      ghost var kinds, olds, left := Kinds(), Values(), parts;
      ghost var total, done: seq<Value> := RecvFields(kinds, olds, r.Rest(), parts), [];
      assert kinds[0..] == kinds && olds[0..] == olds && done + total.values == total.values;
      NowFirst(fields, idx);
      exit := Done;
      for k := 0 to |idx|
        invariant Valid() && r.Valid() && r.needle >= old(r.needle)
        invariant Pending(input, left, later) && |done| == k && exit.Done?
        invariant var o := RecvFields(kinds[k..], olds[k..], r.Rest(), left);
          total == Outcome(o.exit, done + o.values, r.needle - old(r.needle) + o.used, o.parts)
        invariant Now(fields, idx, done, old(fields))
      {
        ghost var rest, was := r.Rest(), r.needle;
        ghost var s := RecvField(kinds[k], rest, left);
        FieldsFrom(kinds, olds, k, rest, left);
        GatherAt(cls.fields, idx, k);
        NowNext(fields, idx, done, old(fields), s.update.GetOr(olds[k]));
        exit := ReadField(idx[k], r, input, left, later);
        if !exit.Done? {
          NowFailed(fields, idx, done, old(fields), s.update.GetOr(olds[k]));
          return;
        }
        assert rest[r.needle - was..] == r.Rest();
        ListAppend(done, s.update.value, RecvFields(kinds[k + 1..], olds[k + 1..], r.Rest(), s.parts).values);
        done, left := done + [s.update.value], s.parts;
      }
      FieldsFrom(kinds, olds, |idx|, r.Rest(), left);
      NowLast(fields, idx, done, old(fields));
    }

    /** A whole message waiting on the socket, other packets behind it. */
    static ghost predicate Arrived(input: Socket, frames: seq<bytes>, later: seq<Packet>)
      reads input
    {
      frames != [] && input.queue == Flagged(frames) + later
    }

    /** Signature and message id: 3 octets, or the exit taken within them. */
    method ReadHeader(r: Reader) returns (exit: Exit)
      requires Valid() && r.Valid() && r.needle == 0
      modifies this`id, r`needle
      ensures Valid() && r.Valid()
      ensures exit.Done? <==> |r.input| >= 3 && GetNumber(r.input[..2]) == cls.ToSchema().Magic()
                              && GetNumber(r.input[2..][..1]) in cls.messages
      ensures exit.Truncated? <==>
        |r.input| < 2 || (|r.input| == 2 && GetNumber(r.input[..2]) == cls.ToSchema().Magic())
      ensures id == if |r.input| >= 3 && GetNumber(r.input[..2]) == cls.ToSchema().Magic()
                    then GetNumber(r.input[2..][..1]) else old(id)
      ensures exit.Done? ==> r.Rest() == r.input[3..]
    {
      hide GetNumber, HoldsAll, PutTable;
      var ok, signature := r.GetNumeral(2);
      if !ok { return Truncated; }
      if signature != 0xAAA0 + cls.signature { return Rejected; }
      var number;
      ok, number := r.GetNumeral(1);
      if !ok { return Truncated; }
      id := number;
      exit := if id in cls.messages then Done else Rejected;
    }

    /** `recv`: signature, message id, then the fields of that message. */
    method Recv(input: Socket, ghost frames: seq<bytes>, ghost later: seq<Packet>)
      returns (rc: int, ghost exit: Exit)
      requires Valid() && Arrived(input, frames, later)
      modifies this`id, this`fields, input
      ensures Valid()
      ensures var r := Wire.Recv(cls.ToSchema(), old(Olds()), frames[0], frames[1..]);
        && exit == r.exit && rc == r.exit.Rc() && Pending(input, r.parts, later)
        && id == r.id.GetOr(old(id))
        && (r.id.Some? && id in cls.messages ==> Values() == r.values)
        && (r.id.None? || id !in cls.messages ==> fields == old(fields))
      ensures forall i :: 0 <= i < |fields| && i !in Idx() ==> fields[i] == old(fields[i])
    {
      hide RecvFields, RecvField, Holds, HoldsAll, GetNumber, PutTable, WellFormed, WellFormedAll, Class.Indexed,
        Valid, Class.Valid;
      assert Flagged(frames)[1..] == Flagged(frames[1..]);
      var frame := input.Recv();
      var r := new Reader(frame);
      var outcome := ReadHeader(r);
      if outcome.Done? {
        outcome := ReadFields(r, input, frames[1..], later);
      }
      rc, exit := outcome.Rc(), outcome;
    }
  }
}
