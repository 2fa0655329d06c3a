/**
 A codec object over its whole life: any sequence of setters, ownership-taking getters, encodes, sends and
 receives, failed ones included, and what the next frame's slack then is.
 */
module Lifetime {
  import opened Options
  import opened Bytes
  import opened Wire
  import opened RoundTrip
  import opened Buffers
  import opened Sockets
  import opened Codec

  datatype Use =
    | SetId(id: nat)
    | Set(i: nat, value: Value)
    | SetText(i: nat, text: bytes)
    | Take(i: nat)
    | Encode
    | Send
    | Receive(frames: seq<bytes>)

  /** What an object holds: message id, fields, and for each hash field the table it had when last sized. */
  datatype Held = Held(id: nat, fields: seq<Value>, sized: seq<seq<Pair>>)

  predicate Shaped(cls: Class, h: Held) {
    |h.fields| == |h.sized| == |cls.fields|
  }

  /** The C types of the call's arguments; a receive has at least its first frame. */
  predicate Legal(cls: Class, use: Use) {
    match use
    case Set(i, value) => i < |cls.fields| && Holds(cls.fields[i], value)
    case SetText(i, text) => i < |cls.fields| && cls.fields[i] == Str(None) && NulFree(text)
    case Take(i) =>
      i < |cls.fields| &&
      var k := cls.fields[i]; k.Strings? || k.Hash? || k.Chunk? || k.Uuid? || k.Frame? || k.Msg?
    case Receive(frames) => frames != []
    case _ => true
  }

  function Fields(cls: Class, id: nat): seq<nat> {
    if id in cls.messages then cls.messages[id] else []
  }

  // ---------------------------------------------------------------- one call, and all of them

  function IndexOf(idx: seq<nat>, i: nat): (j: nat)
    requires i in idx
    ensures j < |idx| && idx[j] == i
  {
    if idx[0] == i then 0 else 1 + IndexOf(idx[1..], i)
  }

  /** The fields in idx take these values. */
  function Place(fs: seq<Value>, idx: seq<nat>, vals: seq<Value>): (r: seq<Value>)
    requires |vals| == |idx|
    ensures |r| == |fs|
  {
    seq(|fs|, i requires 0 <= i < |fs| => if i in idx then vals[IndexOf(idx, i)] else fs[i])
  }

  /** What each message's fields hold, as the receiver finds it. */
  function Before(cls: Class, fields: seq<Value>): (olds: map<nat, seq<Value>>)
    requires cls.Indexed() && |fields| == |cls.fields|
    ensures Contents(cls.ToSchema(), olds)
  {
    map id | id in cls.messages :: Gather(fields, cls.messages[id])
  }

  function Received(cls: Class, fields: seq<Value>, frames: seq<bytes>): (r: Wire.Received)
    requires cls.Indexed() && |fields| == |cls.fields| && frames != []
    ensures r.id.Some? && r.id.value in cls.messages ==> |r.values| == |cls.messages[r.id.value]|
  {
    Recv(cls.ToSchema(), Before(cls, fields), frames[0], frames[1..])
  }

  function SizedNow(cls: Class, h: Held): (sized: seq<seq<Pair>>)
    requires Shaped(cls, h)
    ensures |sized| == |cls.fields|
  {
    seq(|cls.fields|, i requires 0 <= i < |cls.fields| =>
      LastSized(cls.fields[i], h.fields[i], i in Fields(cls, h.id), h.sized[i]))
  }

  function After(cls: Class, h: Held, use: Use): (h': Held)
    requires cls.Indexed() && Shaped(cls, h) && Legal(cls, use)
    ensures Shaped(cls, h')
  {
    match use
    case SetId(id) => h.(id := id)
    case Set(i, value) => h.(fields := h.fields[i := value])
    case SetText(i, text) => h.(fields := h.fields[i := Text(Shortened(text))])
    case Take(i) => h.(fields := h.fields[i := Unset(cls.fields[i])])
    case Encode => h.(sized := SizedNow(cls, h))
    case Send => h.(sized := SizedNow(cls, h))
    case Receive(frames) =>
      var r := Received(cls, h.fields, frames);
      if r.id.None? then h
      else if r.id.value !in cls.messages then h.(id := r.id.value)
      else h.(id := r.id.value, fields := Place(h.fields, cls.messages[r.id.value], r.values))
  }

  predicate AllLegal(cls: Class, uses: seq<Use>) {
    forall n :: 0 <= n < |uses| ==> Legal(cls, uses[n])
  }

  function AfterAll(cls: Class, h: Held, uses: seq<Use>): (h': Held)
    requires cls.Indexed() && Shaped(cls, h) && AllLegal(cls, uses)
    ensures Shaped(cls, h')
  {
    if uses == [] then h else After(cls, AfterAll(cls, h, uses[..|uses| - 1]), uses[|uses| - 1])
  }

  // ---------------------------------------------------------------- the object itself

  ghost function Now(o: Object): (h: Held)
    requires o.Valid()
    reads o
    ensures Shaped(o.cls, h)
  {
    Held(o.id, o.fields, o.sized)
  }

  lemma PlaceIs(before: seq<Value>, idx: seq<nat>, fs: seq<Value>)
    requires |fs| == |before| && Within(idx, |fs|)
    requires forall i :: 0 <= i < |fs| && i !in idx ==> fs[i] == before[i]
    ensures fs == Place(before, idx, Gather(fs, idx))
  {
    forall i | 0 <= i < |fs| ensures fs[i] == Place(before, idx, Gather(fs, idx))[i] {
      if i in idx {
        GatherAt(fs, idx, IndexOf(idx, i));
      }
    }
  }

  /** A socket with one message waiting on it. */
  method Waiting(frames: seq<bytes>) returns (input: Socket)
    ensures fresh(input) && input.queue == Flagged(frames)
  {
    input := new Socket();
    for j := 0 to |frames|
      invariant fresh(input) && input.queue == Flagged(frames)[..j]
    {
      input.Send(frames[j], j < |frames| - 1);
    }
  }

  method ReceiveFrames(o: Object, frames: seq<bytes>)
    requires o.Valid() && frames != []
    modifies o
    ensures o.Valid() && Now(o) == After(o.cls, old(Now(o)), Receive(frames))
  {
    hide Recv, Gather, Holds, HoldsAll, Class.Valid, Place, Object.Valid, Codec.Object.Kinds;
    ObjectIs(o);
    ghost var before := Before(o.cls, o.fields);
    assert before == o.Olds();
    var input := Waiting(frames);
    assert Flagged(frames) + [] == Flagged(frames);
    ghost var fs := o.fields;
    ghost var exit;
    var rc;
    rc, exit := o.Recv(input, frames, []);
    ObjectIs(o);
    PlaceIs(fs, o.Idx(), o.fields);
  }

  lemma ObjectIs(o: Object)
    requires o.Valid()
    ensures o.cls.Indexed() && |o.fields| == |o.sized| == |o.cls.fields|
    ensures Within(o.Idx(), |o.fields|) && o.Idx() == Fields(o.cls, o.id) && o.Values() == Gather(o.fields, o.Idx())
  {
  }

  /** One call on the object does to what it holds what the specification says. */
  method UseOnce(o: Object, use: Use)
    requires o.Valid() && Legal(o.cls, use)
    modifies o
    ensures o.Valid() && Now(o) == After(o.cls, old(Now(o)), use)
  {
    hide Recv, Gather, Holds, HoldsAll, Class.Valid, Place, Received, PutFields, TotalSlack;
    ObjectIs(o);
    match use
    case SetId(id) => o.SetId(id);
    case Set(i, value) => o.Set(i, value);
    case SetText(i, text) => o.SetText(i, text);
    case Take(i) =>
      var v := o.Take(i);
    case Encode =>
      var w := o.Encode();
    case Send =>
      var output := new Socket();
      ghost var first := o.Send(output);
    case Receive(frames) => ReceiveFrames(o, frames);
  }

  method UseAll(o: Object, uses: seq<Use>)
    requires o.Valid() && AllLegal(o.cls, uses)
    modifies o
    ensures o.Valid() && o.cls.Indexed() && Now(o) == AfterAll(o.cls, old(Now(o)), uses)
  {
    hide After, Legal, Class.Valid, Object.Valid, Now;
    ObjectIs(o);
    ghost var start := Now(o);
    for n := 0 to |uses|
      invariant o.Valid() && Now(o) == AfterAll(o.cls, start, uses[..n])
    {
      assert uses[..n + 1][..n] == uses[..n];
      UseOnce(o, uses[n]);
    }
    assert uses[..|uses|] == uses;
  }

  // ---------------------------------------------------------------- the slack of the next frame

  /** The tables last sized of the hashes that are not set, among the current message's fields. */
  function TableSlack(kinds: seq<Kind>, vals: seq<Value>, tables: seq<seq<Pair>>): nat
    requires HoldsAll(kinds, vals) && |tables| == |kinds|
  {
    if kinds == [] then 0
    else
      (if kinds[0].Hash? && vals[0].table.None? then |PutTable(tables[0])| else 0)
      + TableSlack(kinds[1..], vals[1..], tables[1..])
  }

  lemma {:induction false} SlackIsTables(kinds: seq<Kind>, vals: seq<Value>, retained: seq<nat>, tables: seq<seq<Pair>>)
    requires HoldsAll(kinds, vals) && |retained| == |tables| == |kinds|
    requires forall i :: 0 <= i < |kinds| ==> retained[i] == |PutTable(tables[i])|
    ensures TotalSlack(kinds, vals, retained) == TableSlack(kinds, vals, tables)
  {
    hide PutTable, Holds;
    if kinds != [] {
      SlackIsTables(kinds[1..], vals[1..], retained[1..], tables[1..]);
    }
  }

  /**
   After any sequence of calls the next encode stays within its frame, writes exactly the encoding of what
   the object then holds, and leaves as slack exactly the octets of the tables its unset hashes had when
   they were last sized.
   */
  method UseThenEncode(o: Object, uses: seq<Use>) returns (w: Writer)
    requires o.Valid() && AllLegal(o.cls, uses)
    modifies o
    ensures o.Valid() && w.Valid() && o.cls.Indexed()
    ensures var h := AfterAll(o.cls, old(Now(o)), uses);
      && o.id == h.id && o.fields == h.fields && Within(o.Idx(), |h.sized|)
      && w.Written() == o.Encoding()
      && w.data.Length - w.needle == TableSlack(o.Kinds(), o.Values(), Gather(h.sized, o.Idx()))
  {
    hide AfterAll, TotalSlack, TableSlack, HoldsAll, PutTable, Class.Valid;
    UseAll(o, uses);
    ObjectIs(o);
    SlackIsTables(o.Kinds(), o.Values(), Gather(o.hashBytes, o.Idx()), Gather(o.sized, o.Idx()));
    w := o.Encode();
  }

  // ---------------------------------------------------------------- which table that is

  /** The n-th call sizes hash field i: it encodes a message with that field, and the field is set. */
  predicate SizesAt(cls: Class, h: Held, uses: seq<Use>, i: nat, n: nat)
    requires cls.Indexed() && Shaped(cls, h) && AllLegal(cls, uses) && i < |cls.fields| && n < |uses|
  {
    (uses[n].Encode? || uses[n].Send?) && cls.fields[i].Hash? &&
    var now := AfterAll(cls, h, uses[..n]);
    i in Fields(cls, now.id) && now.fields[i].Table? && now.fields[i].table.Some?
  }

  /** Calls that do not size it leave the retained table alone. */
  lemma {:induction false} NotSizedSince(cls: Class, h: Held, uses: seq<Use>, i: nat, from: nat)
    requires cls.Indexed() && Shaped(cls, h) && AllLegal(cls, uses) && i < |cls.fields| && from <= |uses|
    requires forall n :: from <= n < |uses| ==> !SizesAt(cls, h, uses, i, n)
    ensures AfterAll(cls, h, uses).sized[i] == AfterAll(cls, h, uses[..from]).sized[i]
    decreases |uses|
  {
    hide After, Legal, AfterAll, SizesAt;
    if from == |uses| {
      assert uses[..from] == uses;
    } else {
      var m := |uses| - 1;
      var init := uses[..m];
      forall n | from <= n < m ensures !SizesAt(cls, h, init, i, n) {
        assert !SizesAt(cls, h, uses, i, n);
        SizesInPrefix(cls, h, uses, i, n, m);
      }
      NotSizedSince(cls, h, init, i, from);
      assert init[..from] == uses[..from];
      assert !SizesAt(cls, h, uses, i, m);
      CallAt(cls, h, uses, i, m);
      AfterLast(cls, h, uses);
    }
  }

  lemma SizesInPrefix(cls: Class, h: Held, uses: seq<Use>, i: nat, n: nat, m: nat)
    requires cls.Indexed() && Shaped(cls, h) && AllLegal(cls, uses) && i < |cls.fields| && n < m <= |uses|
    ensures SizesAt(cls, h, uses[..m], i, n) == SizesAt(cls, h, uses, i, n)
  {
    hide AfterAll, Legal;
    assert uses[..m][..n] == uses[..n] && uses[..m][n] == uses[n];
  }

  lemma AfterLast(cls: Class, h: Held, uses: seq<Use>)
    requires cls.Indexed() && Shaped(cls, h) && AllLegal(cls, uses) && uses != []
    ensures AfterAll(cls, h, uses) == After(cls, AfterAll(cls, h, uses[..|uses| - 1]), uses[|uses| - 1])
  {
    hide After, Legal;
  }

  /** What the n-th call makes of the retained table. */
  lemma CallAt(cls: Class, h: Held, uses: seq<Use>, i: nat, n: nat)
    requires cls.Indexed() && Shaped(cls, h) && AllLegal(cls, uses) && i < |cls.fields| && n < |uses|
    ensures var now := AfterAll(cls, h, uses[..n]);
      var sizes := SizesAt(cls, h, uses, i, n);
      && (sizes ==> now.fields[i].Table? && now.fields[i].table.Some?)
      && After(cls, now, uses[n]).sized[i] == if sizes then now.fields[i].table.value else now.sized[i]
  {
    hide AfterAll, After;
    LastCall(cls, AfterAll(cls, h, uses[..n]), uses[n], i);
  }

  /** The table retained for a hash is the one the object held when a call, the n-th, last sized it. */
  lemma RetainedIsLastSized(cls: Class, h: Held, uses: seq<Use>, i: nat, n: nat)
    requires cls.Indexed() && Shaped(cls, h) && AllLegal(cls, uses) && i < |cls.fields| && n < |uses|
    requires SizesAt(cls, h, uses, i, n)
    requires forall later :: n < later < |uses| ==> !SizesAt(cls, h, uses, i, later)
    ensures var now := AfterAll(cls, h, uses[..n]);
      && now.fields[i].Table? && now.fields[i].table.Some?
      && AfterAll(cls, h, uses).sized[i] == now.fields[i].table.value
  {
    hide After, Legal, AfterAll, SizesAt;
    NotSizedSince(cls, h, uses, i, n + 1);
    CallAt(cls, h, uses, i, n);
    AfterLast(cls, h, uses[..n + 1]);
    assert uses[..n + 1][..n] == uses[..n];
  }

  /** It is the one to begin with, empty for a new object, if no call did. */
  lemma NeverSizedIsKept(cls: Class, h: Held, uses: seq<Use>, i: nat)
    requires cls.Indexed() && Shaped(cls, h) && AllLegal(cls, uses) && i < |cls.fields|
    requires forall n :: 0 <= n < |uses| ==> !SizesAt(cls, h, uses, i, n)
    ensures AfterAll(cls, h, uses).sized[i] == h.sized[i]
  {
    hide After, Legal, AfterAll, SizesAt;
    NotSizedSince(cls, h, uses, i, 0);
    AfterNone(cls, h);
    assert uses[..0] == [];
  }

  lemma AfterNone(cls: Class, h: Held)
    requires cls.Indexed() && Shaped(cls, h)
    ensures AfterAll(cls, h, []) == h
  {
  }

  lemma LastCall(cls: Class, h: Held, use: Use, i: nat)
    requires cls.Indexed() && Shaped(cls, h) && Legal(cls, use) && i < |cls.fields|
    ensures After(cls, h, use).sized[i]
         == if use.Encode? || use.Send? then LastSized(cls.fields[i], h.fields[i], i in Fields(cls, h.id), h.sized[i])
            else h.sized[i]
  {
    hide Received, Place;
  }

  // ---------------------------------------------------------------- a hash that is taken

  /** An ownership-taking getter leaves a null pointer of the field's type, and every other field alone. */
  lemma TakenIsNull(cls: Class, h: Held, i: nat)
    requires cls.Indexed() && Shaped(cls, h) && Legal(cls, Take(i))
    ensures var h' := After(cls, h, Take(i));
      && (cls.fields[i].Strings? ==> h'.fields[i] == List(None))
      && (cls.fields[i].Hash? ==> h'.fields[i] == Table(None))
      && (cls.fields[i].Chunk? ==> h'.fields[i] == Blob(None))
      && (cls.fields[i].Uuid? ==> h'.fields[i] == Id(None))
      && (cls.fields[i].Frame? ==> h'.fields[i] == Part(None))
      && (cls.fields[i].Msg? ==> h'.fields[i] == Parts(None))
      && h'.id == h.id && h'.sized == h.sized
      && forall j :: 0 <= j < |h.fields| && j != i ==> h'.fields[j] == h.fields[j]
  {
  }

  /** A call that neither sets field i nor receives. */
  predicate LeavesAlone(use: Use, i: nat) {
    match use
    case Set(j, _) => j != i
    case SetText(j, _) => j != i
    case Receive(_) => false
    case _ => true
  }

  /** A hash field that is null stays null, and its retained table stays, under calls that leave it alone. */
  lemma {:induction false} NullStays(cls: Class, h: Held, uses: seq<Use>, i: nat)
    requires cls.Indexed() && Shaped(cls, h) && AllLegal(cls, uses) && i < |cls.fields| && cls.fields[i].Hash?
    requires h.fields[i] == Table(None) && forall n :: 0 <= n < |uses| ==> LeavesAlone(uses[n], i)
    ensures var h' := AfterAll(cls, h, uses);
      h'.fields[i] == Table(None) && h'.sized[i] == h.sized[i]
  {
    hide After, Legal, LeavesAlone;
    if uses != [] {
      var n := |uses| - 1;
      NullStays(cls, h, uses[..n], i);
      assert LeavesAlone(uses[n], i);
      NullStaysOnce(cls, AfterAll(cls, h, uses[..n]), uses[n], i);
    }
  }

  lemma NullStaysOnce(cls: Class, h: Held, use: Use, i: nat)
    requires cls.Indexed() && Shaped(cls, h) && Legal(cls, use) && i < |cls.fields| && cls.fields[i].Hash?
    requires h.fields[i] == Table(None) && LeavesAlone(use, i)
    ensures After(cls, h, use).fields[i] == Table(None) && After(cls, h, use).sized[i] == h.sized[i]
  {
    hide Received, Place;
  }

  lemma {:induction false} AfterAppend(cls: Class, h: Held, a: seq<Use>, b: seq<Use>)
    requires cls.Indexed() && Shaped(cls, h) && AllLegal(cls, a) && AllLegal(cls, b)
    ensures AllLegal(cls, a + b) && AfterAll(cls, h, a + b) == AfterAll(cls, AfterAll(cls, h, a), b)
  {
    hide After, Legal;
    if b == [] {
      assert a + b == a;
    } else {
      assert (a + b)[..|a + b| - 1] == a + b[..|b| - 1];
      AfterAppend(cls, h, a, b[..|b| - 1]);
    }
  }

  /** What one unset hash adds to the slack. */
  lemma {:induction false} SlackOfOne(kinds: seq<Kind>, vals: seq<Value>, tables: seq<seq<Pair>>, j: nat)
    requires HoldsAll(kinds, vals) && |tables| == |kinds| && j < |kinds| && kinds[j].Hash? && vals[j] == Table(None)
    ensures TableSlack(kinds, vals, tables) == TableSlack(kinds, vals, tables[j := []]) + |PutTable(tables[j])|
  {
    hide Holds, PutTable;
    assert PutTable([]) == [] by { NoItems(); }
    if j > 0 {
      SlackOfOne(kinds[1..], vals[1..], tables[1..], j - 1);
      assert tables[j := []][1..] == tables[1..][j - 1 := []];
    } else {
      assert tables[0 := []][1..] == tables[1..];
    }
  }

  /**
   Take a hash the current message was encoded with, its table t, and neither set nor receive it again: it
   is null from then on, and every later frame of a message with that field is larger than the encoding by
   exactly the octets of t on its account.
   */
  lemma TakenHashLeavesSlack(cls: Class, h: Held, i: nat, t: seq<Pair>, later: seq<Use>, vals: seq<Value>, j: nat)
    requires cls.Valid() && Shaped(cls, h) && i < |cls.fields| && cls.fields[i].Hash? && AllLegal(cls, later)
    requires i in Fields(cls, h.id) && h.fields[i] == Table(Some(t))
    requires forall n :: 0 <= n < |later| ==> LeavesAlone(later[n], i)
    ensures AllLegal(cls, [Encode, Take(i)] + later)
    ensures var h' := AfterAll(cls, h, [Encode, Take(i)] + later);
      var idx := Fields(cls, h'.id);
      && h'.fields[i] == Table(None) && h'.sized[i] == t
      && (Within(idx, |cls.fields|) && j < |idx| && idx[j] == i && vals == Gather(h'.fields, idx)
          && HoldsAll(Gather(cls.fields, idx), vals) ==>
            var tables := Gather(h'.sized, idx);
            TableSlack(Gather(cls.fields, idx), vals, tables)
            == TableSlack(Gather(cls.fields, idx), vals, tables[j := []]) + |PutTable(t)|)
  {
    hide After, AfterAll, Holds, HoldsAll, PutTable, TableSlack, Class.Valid;
    assert cls.Indexed() by { ValidIsIndexed(cls); }
    EncodeThenTake(cls, h, i, t);
    AfterAppend(cls, h, [Encode, Take(i)], later);
    var taken := AfterAll(cls, h, [Encode, Take(i)]);
    NullStays(cls, taken, later, i);
    var h' := AfterAll(cls, h, [Encode, Take(i)] + later);
    var idx := Fields(cls, h'.id);
    if Within(idx, |cls.fields|) && j < |idx| && idx[j] == i && vals == Gather(h'.fields, idx)
       && HoldsAll(Gather(cls.fields, idx), vals) {
      GatherAt(cls.fields, idx, j);
      GatherAt(h'.fields, idx, j);
      GatherAt(h'.sized, idx, j);
      SlackOfOne(Gather(cls.fields, idx), vals, Gather(h'.sized, idx), j);
    }
  }

  lemma ValidIsIndexed(cls: Class)
    requires cls.Valid()
    ensures cls.Indexed()
  {
  }

  lemma EncodeThenTake(cls: Class, h: Held, i: nat, t: seq<Pair>)
    requires cls.Indexed() && Shaped(cls, h) && i < |cls.fields| && cls.fields[i].Hash?
    requires i in Fields(cls, h.id) && h.fields[i] == Table(Some(t))
    ensures AllLegal(cls, [Encode, Take(i)])
    ensures var h' := AfterAll(cls, h, [Encode, Take(i)]);
      h'.fields[i] == Table(None) && h'.sized[i] == t
  {
    hide After;
    var uses := [Encode, Take(i)];
    assert uses[..1] == [Encode] && uses[..1][..0] == [];
    AfterNone(cls, h);
    assert AfterAll(cls, h, [Encode]) == After(cls, h, Encode) by { AfterLast(cls, h, [Encode]); }
    AfterLast(cls, h, uses);
    LastCall(cls, h, Encode, i);
    TakenIsNull(cls, After(cls, h, Encode), i);
    EncodeKeepsFields(cls, h);
  }

  lemma EncodeKeepsFields(cls: Class, h: Held)
    requires cls.Indexed() && Shaped(cls, h)
    ensures After(cls, h, Encode).fields == h.fields
  {
  }
}
