/**
 The caller's side of a method call: s_accept_reply takes replies from the actor's pipe until one of
 the accepted names arrives, and loads the object's properties from that reply.
 */
module AcceptReply {
  import opened Options

  /** A reply is its name, then one frame per argument. */
  datatype Reply = Reply(name: string, args: seq<string>)

  /** A field of a declared reply; `owned` ones have a destructor, which leaves them unset. */
  datatype Field = Field(name: string, owned: bool)

  datatype Declared = Declared(name: string, fields: seq<Field>)

  type Properties = map<string, Option<string>>

  // ---------------------------------------------------------------- specification

  /** Where the first reply with an accepted name is; the length if there is none. */
  function FirstAccepted(queue: seq<Reply>, filters: seq<string>): (k: nat)
    ensures k <= |queue|
    ensures forall j :: 0 <= j < k ==> queue[j].name !in filters
    ensures k < |queue| ==> queue[k].name in filters
  {
    if queue == [] || queue[0].name in filters then 0 else 1 + FirstAccepted(queue[1..], filters)
  }

  function FieldsOf(declared: seq<Declared>, name: string): Option<seq<Field>> {
    if declared == [] then None
    else if declared[0].name == name then Some(declared[0].fields)
    else FieldsOf(declared[1..], name)
  }

  function Destroyed(p: Properties, fields: seq<Field>): Properties
    decreases |fields|
  {
    if fields == [] then p
    else Destroyed(if fields[0].owned then p[fields[0].name := None] else p, fields[1..])
  }

  /** Each field takes the frame at its place; a field with no frame is unset. */
  function Loaded(p: Properties, fields: seq<Field>, frames: seq<string>): Properties
    decreases |fields|
  {
    if fields == [] then p
    else if frames == [] then Loaded(p[fields[0].name := None], fields[1..], [])
    else Loaded(p[fields[0].name := Some(frames[0])], fields[1..], frames[1..])
  }

  /** `waited`: a read found nothing to read, and blocked until it was interrupted. */
  datatype Outcome = Outcome(properties: Properties, queue: seq<Reply>, waited: bool)

  /**
   An accepted reply of a declared name is read as a whole message. When all its frames have been read
   already, that is the next message, and the call blocks if there is none. `later` are the replies
   behind it, those that arrive during the call included.
   */
  function Accepted(declared: seq<Declared>, p: Properties, reply: Reply, later: seq<Reply>): Outcome {
    var fields := FieldsOf(declared, reply.name);
    if fields.None? then Outcome(p, later, false)
    else if reply.args != [] then Outcome(Loaded(Destroyed(p, fields.value), fields.value, reply.args), later, false)
    else if later == [] then Outcome(Destroyed(p, fields.value), [], true)
    else
      var frames := [later[0].name] + later[0].args;
      Outcome(Loaded(Destroyed(p, fields.value), fields.value, frames), later[1..], false)
  }

  // ---------------------------------------------------------------- the object

  class Front {
    const declared: seq<Declared>
    // the pipe from the actor: the replies that arrive until the caller is interrupted, and the frames
    // left of one partly read; a read that finds neither blocks until the interruption
    var queue: seq<Reply>
    var part: seq<string>
    var properties: Properties

    constructor (declared: seq<Declared>, queue: seq<Reply>, properties: Properties)
      ensures this.declared == declared && this.queue == queue && part == [] && this.properties == properties
    {
      this.declared, this.queue, part, this.properties := declared, queue, [], properties;
    }

    /** zstr_recv: the next frame; None when it has waited in vain. */
    method RecvFrame() returns (frame: Option<string>)
      requires part == []
      modifies this`queue, this`part
      ensures old(queue) == [] ==> frame == None && queue == [] && part == []
      ensures old(queue) != [] ==>
                frame == Some(old(queue)[0].name) && queue == old(queue)[1..] && part == old(queue)[0].args
    {
      if queue == [] {
        return None;
      }
      frame, part, queue := Some(queue[0].name), queue[0].args, queue[1..];
    }

    /**
     The start of zsock_recv: the frames left of the current message, else those of the next one; None
     when it has waited in vain.
     */
    method RecvMessage() returns (frames: Option<seq<string>>)
      modifies this`queue, this`part
      ensures part == []
      ensures old(part) != [] ==> frames == Some(old(part)) && queue == old(queue)
      ensures old(part) == [] && old(queue) == [] ==> frames == None && queue == []
      ensures old(part) == [] && old(queue) != [] ==>
                frames == Some([old(queue)[0].name] + old(queue)[0].args) && queue == old(queue)[1..]
    {
      if part != [] {
        frames, part := Some(part), [];
      } else if queue == [] {
        frames := None;
      } else {
        frames, queue := Some([queue[0].name] + queue[0].args), queue[1..];
      }
    }

    method DestroyFields(fields: seq<Field>)
      modifies this`properties
      ensures properties == Destroyed(old(properties), fields)
    {
      assert fields[0..] == fields;
      for i := 0 to |fields|
        invariant Destroyed(properties, fields[i..]) == Destroyed(old(properties), fields)
      {
        assert fields[i..][1..] == fields[i + 1..];
        if fields[i].owned {
          properties := properties[fields[i].name := None];
        }
      }
    }

    /** The rest of zsock_recv: frames into fields, by the picture. */
    method StoreFields(fields: seq<Field>, frames: seq<string>)
      modifies this`properties
      ensures properties == Loaded(old(properties), fields, frames)
    {
      assert fields[0..] == fields;
      var rest := frames;
      for i := 0 to |fields|
        invariant Loaded(properties, fields[i..], rest) == Loaded(old(properties), fields, frames)
      {
        assert fields[i..][1..] == fields[i + 1..];
        if rest == [] {
          properties := properties[fields[i].name := None];
        } else {
          properties := properties[fields[i].name := Some(rest[0])];
          rest := rest[1..];
        }
      }
    }

    /** The chain over the declared replies, for an accepted reply whose name has been read. */
    method LoadReply(name: string) returns (waited: bool)
      modifies this`properties, this`queue, this`part
      ensures Outcome(properties, queue, waited)
           == Accepted(declared, old(properties), Reply(name, old(part)), old(queue))
    {
      hide Destroyed, Loaded;
      waited := false;
      var i := 0;
      while i < |declared| && declared[i].name != name
        invariant i <= |declared|
        invariant FieldsOf(declared[i..], name) == FieldsOf(declared, name)
      {
        assert declared[i..][1..] == declared[i + 1..];
        i := i + 1;
      }
      if i < |declared| {
        DestroyFields(declared[i].fields);
        var frames := RecvMessage();
        if frames.Some? {
          StoreFields(declared[i].fields, frames.value);
        } else {
          waited := true;
        }
      }
    }

    /**
     Returns 0 if a reply was accepted, -1 if the wait for one was interrupted. An interrupted read of an
     accepted reply goes unnoticed: the return code is 0 all the same.
     */
    method AcceptReply(filters: seq<string>) returns (rc: int, waited: bool)
      requires part == []
      modifies this`properties, this`queue, this`part
      ensures part == []
      ensures var k := FirstAccepted(old(queue), filters);
              k == |old(queue)| ==> rc == -1 && waited && queue == [] && properties == old(properties)
      ensures var k := FirstAccepted(old(queue), filters);
              k < |old(queue)| ==>
                rc == 0 &&
                Outcome(properties, queue, waited)
                == Accepted(declared, old(properties), old(queue)[k], old(queue)[k + 1..])
    {
      hide Accepted;
      ghost var taken := 0;
      while true
        invariant part == [] && properties == old(properties)
        invariant taken <= |old(queue)| && queue == old(queue)[taken..]
        invariant FirstAccepted(old(queue), filters) == taken + FirstAccepted(queue, filters)
        decreases |queue|
      {
        var reply := RecvFrame();
        if reply == None {
          return -1, true;
        }
        taken := taken + 1;
        var f := 0;
        while f < |filters| && reply.value != filters[f]
          invariant f <= |filters|
          invariant reply.value !in filters[..f]
        {
          f := f + 1;
        }
        if f < |filters| {
          waited := LoadReply(reply.value);
        }
        part := [];
        if f < |filters| {
          return 0, waited;
        }
        assert filters[..f] == filters;
      }
    }
  }

  // ---------------------------------------------------------------- what it means

  predicate Distinct(fields: seq<Field>) {
    forall i, j :: 0 <= i < j < |fields| ==> fields[i].name != fields[j].name
  }

  /** Loading sets every field of the reply from its own frame, and touches no other property. */
  lemma {:induction false} LoadedMeans(p: Properties, fields: seq<Field>, frames: seq<string>)
    requires Distinct(fields)
    ensures forall i :: 0 <= i < |fields| ==>
              && fields[i].name in Loaded(p, fields, frames)
              && Loaded(p, fields, frames)[fields[i].name] == (if i < |frames| then Some(frames[i]) else None)
    ensures forall n :: (forall i :: 0 <= i < |fields| ==> fields[i].name != n) ==>
              (n in Loaded(p, fields, frames) <==> n in p) && (n in p ==> Loaded(p, fields, frames)[n] == p[n])
    decreases |fields|
  {
    if fields != [] {
      var value := if frames == [] then None else Some(frames[0]);
      var q := p[fields[0].name := value];
      var rest := if frames == [] then [] else frames[1..];
      LoadedMeans(q, fields[1..], rest);
      assert Loaded(p, fields, frames) == Loaded(q, fields[1..], rest);
      forall i | 0 <= i < |fields|
        ensures fields[i].name in Loaded(p, fields, frames)
        ensures Loaded(p, fields, frames)[fields[i].name] == (if i < |frames| then Some(frames[i]) else None)
      {
        if i > 0 {
          assert fields[i] == fields[1..][i - 1];
        }
      }
    }
  }

  predicate Among(name: string, fields: seq<Field>) {
    exists i :: 0 <= i < |fields| && fields[i].name == name
  }

  /** The same properties, but for these fields. */
  ghost predicate AgreeBut(p: Properties, q: Properties, fields: seq<Field>) {
    forall n :: !Among(n, fields) ==> (n in p <==> n in q) && (n in p ==> p[n] == q[n])
  }

  lemma AmongTurn(name: string, fields: seq<Field>)
    requires fields != []
    ensures Among(name, fields) <==> fields[0].name == name || Among(name, fields[1..])
  {
    if Among(name, fields) && fields[0].name != name {
      var i :| 0 <= i < |fields| && fields[i].name == name;
      assert fields[1..][i - 1].name == name;
    }
    if Among(name, fields[1..]) {
      var i :| 0 <= i < |fields[1..]| && fields[1..][i].name == name;
      assert fields[i + 1].name == name;
    }
  }

  /** Every field is set, so what the destructors did before does not show. */
  lemma {:induction false} LoadedForgets(p: Properties, q: Properties, fields: seq<Field>, frames: seq<string>)
    requires AgreeBut(p, q, fields)
    ensures Loaded(p, fields, frames) == Loaded(q, fields, frames)
    decreases |fields|
  {
    hide Among;
    if fields == [] {
      assert forall n :: !Among(n, fields) by { NoneAmong(); }
      assert p == q;
    } else {
      var value := if frames == [] then None else Some(frames[0]);
      var name := fields[0].name;
      forall n {
        AmongTurn(n, fields);
      }
      LoadedForgets(p[name := value], q[name := value], fields[1..], if frames == [] then [] else frames[1..]);
    }
  }

  lemma NoneAmong()
    ensures forall n :: !Among(n, [])
  {
  }

  lemma {:induction false} DestroyedAgrees(p: Properties, fields: seq<Field>)
    ensures AgreeBut(Destroyed(p, fields), p, fields)
    decreases |fields|
  {
    hide Among;
    if fields != [] {
      var q := if fields[0].owned then p[fields[0].name := None] else p;
      forall n {
        AmongTurn(n, fields);
      }
      DestroyedAgrees(q, fields[1..]);
    }
  }

  /**
   What the documentation promises: the call does not wait once a reply is accepted, that reply alone is
   consumed and loaded, and later replies stay.
   */
  predicate TakesOnly(declared: seq<Declared>, p: Properties, reply: Reply, later: seq<Reply>) {
    var fields := FieldsOf(declared, reply.name);
    var loaded := if fields.None? then p else Loaded(p, fields.value, reply.args);
    Accepted(declared, p, reply, later) == Outcome(loaded, later, false)
  }

  /** Replies carry one frame for each declared field. */
  predicate Complete(declared: seq<Declared>, reply: Reply) {
    var fields := FieldsOf(declared, reply.name);
    fields.Some? ==> |reply.args| == |fields.value|
  }

  /**
   An accepted reply is taken alone exactly when it is not a declared one that consists of its name only,
   whatever stands or arrives behind it. For replies as declared: exactly when it has fields, or is not
   declared. One that is not taken alone blocks the call if nothing arrives, and eats what does.
   */
  lemma TakesOnlyExactly(declared: seq<Declared>, p: Properties, reply: Reply, later: seq<Reply>)
    ensures TakesOnly(declared, p, reply, later) <==> !(FieldsOf(declared, reply.name).Some? && reply.args == [])
    ensures Complete(declared, reply) ==>
              (TakesOnly(declared, p, reply, later) <==> FieldsOf(declared, reply.name) != Some([]))
    ensures Accepted(declared, p, reply, later).waited <==>
              FieldsOf(declared, reply.name).Some? && reply.args == [] && later == []
    ensures !TakesOnly(declared, p, reply, later) && later != [] ==>
              Accepted(declared, p, reply, later).queue == later[1..]
  {
    var fields := FieldsOf(declared, reply.name);
    if fields.Some? {
      if reply.args != [] {
        DestroyedAgrees(p, fields.value);
        LoadedForgets(Destroyed(p, fields.value), p, fields.value, reply.args);
      } else {
        assert later != [] ==> |later[1..]| < |later|;
      }
    }
  }

  /** A call that blocks has destroyed the owned fields of the reply and loaded nothing. */
  lemma BlockedMeans(
      declared: seq<Declared>, p: Properties, reply: Reply, later: seq<Reply>, fields: seq<Field>, name: string)
    requires Accepted(declared, p, reply, later).waited && FieldsOf(declared, reply.name) == Some(fields)
    ensures var q := Accepted(declared, p, reply, later).properties;
      var owned := exists i :: 0 <= i < |fields| && fields[i].owned && fields[i].name == name;
      && (owned ==> name in q && q[name] == None)
      && (!owned ==> (name in q <==> name in p) && (name in p ==> q[name] == p[name]))
  {
    DestroyedMeans(p, fields, name);
  }

  /** A reply with no fields, accepted, swallows the reply behind it; with none behind it, it blocks the call. */
  lemma FieldlessReplySwallowsNext()
    ensures var done := Declared("DONE", []);
            var queue := [Reply("DONE", []), Reply("SUCCESS", ["0"])];
            && FirstAccepted(queue, ["DONE"]) == 0
            && Accepted([done], map[], queue[0], queue[1..]) == Outcome(map[], [], false)
            && Accepted([done], map[], queue[0], []) == Outcome(map[], [], true)
  {
    var queue := [Reply("DONE", []), Reply("SUCCESS", ["0"])];
    assert queue[0].name in ["DONE"];
    assert queue[1..] == [Reply("SUCCESS", ["0"])];
  }

  /** The fields of a reply name are those of its first declaration; an undeclared name has none. */
  lemma {:induction false} FirstDeclarationDecides(declared: seq<Declared>, name: string, i: nat)
    requires i <= |declared| && forall j :: 0 <= j < i ==> declared[j].name != name
    ensures i < |declared| && declared[i].name == name ==> FieldsOf(declared, name) == Some(declared[i].fields)
    ensures i == |declared| ==> FieldsOf(declared, name) == None
    decreases |declared|
  {
    if i > 0 {
      FirstDeclarationDecides(declared[1..], name, i - 1);
    }
  }

  /** Destroying leaves exactly the owned fields unset. */
  lemma {:induction false} DestroyedMeans(p: Properties, fields: seq<Field>, name: string)
    ensures var owned := exists i :: 0 <= i < |fields| && fields[i].owned && fields[i].name == name;
      && (owned ==> name in Destroyed(p, fields) && Destroyed(p, fields)[name] == None)
      && (!owned ==> (name in Destroyed(p, fields) <==> name in p))
      && (!owned && name in p ==> Destroyed(p, fields)[name] == p[name])
    decreases |fields|
  {
    if fields != [] {
      var q := if fields[0].owned then p[fields[0].name := None] else p;
      DestroyedMeans(q, fields[1..], name);
      if i :| 0 <= i < |fields[1..]| && fields[1..][i].owned && fields[1..][i].name == name {
        assert fields[i + 1].owned && fields[i + 1].name == name;
      }
      if i :| 0 <= i < |fields| && fields[i].owned && fields[i].name == name {
        if i > 0 { assert fields[1..][i - 1].owned && fields[1..][i - 1].name == name; }
      }
    }
  }
}
