/**
 The live subscription registry.

 A registry maps a content-type name to a map from event kind to the ordered
 list of subscribers registered for that pair. Subscribe appends a new
 subscriber and hands back its receive handle; Emit delivers one event to
 every subscriber of a pair, in registration order.

 A subscriber is identified by its handle: the channel made for it, numbered
 in the order the channels were made. Delivering an event on a channel is
 recorded as one entry of the registry's send log, so the log gives both
 what each receiver got and the order in which the sends happened.
 */
module Live {
  import opened Events
  import Format

  /** The receive side of one subscriber's channel. */
  type Handle = nat

  /** Content-type name, then event kind, then the subscribers in order. */
  type Table = map<string, map<EventKind, seq<Handle>>>

  /** One completed send: an event handed to the receiver of a channel. */
  datatype Delivery<T> = Delivery(to: Handle, event: LiveEvent<T>)

  /** Where a subscriber sits in the table. */
  datatype Slot = Slot(contentType: string, kind: EventKind, index: nat)

  // ---------------------------------------------------------------------
  // Errors
  // ---------------------------------------------------------------------

  const ErrorPrefix: string := "[live.error] "
  const NoSubsPrefix: string := "no subs for "

  /** The registry's error: a message string. */
  datatype QueryError = QueryError(text: string)
  {
    /** The error text: the package prefix followed by the message. */
    function Error(): (s: string)
      ensures |s| == |ErrorPrefix| + |text|
      ensures s[..|ErrorPrefix|] == ErrorPrefix && s[|ErrorPrefix|..] == text
    {
      ErrorPrefix + text
    }
  }

  /** The error text as written: Go's `%s` verb applied to an operand that
      implements `error` prints that operand's Error() result, so formatting
      the receiver inside its own Error method calls Error again. With `depth`
      nested calls left before the stack is exhausted, the call returns a
      string only if the nested call does. */
  function ErrorAsWritten(e: QueryError, depth: nat): (r: Option<string>)
    ensures r.Some? ==> depth > 0 && ErrorPrefix <= r.value
    decreases depth
  {
    if depth == 0 then None
    else match ErrorAsWritten(e, depth - 1)
      case None => None
      case Some(inner) => Some(ErrorPrefix + inner)
  }

  /** However deep the stack, the Error method as written never returns. */
  lemma {:induction false} ErrorAsWrittenNeverReturns(e: QueryError, depth: nat)
    ensures ErrorAsWritten(e, depth) == None
  {
    if depth > 0 {
      ErrorAsWrittenNeverReturns(e, depth - 1);
    }
  }

  /** The error Emit reports when a content type has no bucket for a kind:
      the content type and the kind's ordinal in decimal, joined by a dot. */
  function NoSubs(contentType: string, eventType: EventKind): (e: QueryError)
    ensures var n := |NoSubsPrefix| + |contentType|;
            && n < |e.text|
            && e.text[..|NoSubsPrefix|] == NoSubsPrefix
            && e.text[|NoSubsPrefix|..n] == contentType
            && e.text[n] == '.'
            && Format.AllDigits(e.text[n + 1..])
            && Format.ParseDecimal(e.text[n + 1..]) == Ordinal(eventType)
  {
    var digits := Format.Decimal(Ordinal(eventType));
    Format.DecimalRoundTrip(Ordinal(eventType));
    var text := NoSubsPrefix + contentType + "." + digits;
    assert text[|NoSubsPrefix| + |contentType| + 1..] == digits;
    QueryError(text)
  }

  /** In a + "." + d with d all digits, the dot after a is the last one. */
  lemma LastDot(a: string, d: string)
    requires Format.AllDigits(d)
    ensures (a + "." + d)[|a|] == '.'
    ensures forall i :: |a| < i < |a + "." + d| ==> (a + "." + d)[i] != '.'
  {
  }

  /** Splitting a text at a dot followed only by digits is unambiguous. */
  lemma SplitBeforeDigits(a: string, d: string, b: string, f: string)
    requires a + "." + d == b + "." + f
    requires Format.AllDigits(d) && Format.AllDigits(f)
    ensures a == b && d == f
  {
    var s := a + "." + d;
    LastDot(a, d);
    LastDot(b, f);
    assert |a| == |b|;
    assert a == s[..|a|] == b;
    assert d == s[|a| + 1..] == f;
  }

  /** A text made of the no-subs prefix, a content type, a dot and digits
      determines the content type and the number the digits denote. */
  lemma ReadBackMessage(t: string, c1: string, o1: nat, c2: string, o2: nat)
    requires |NoSubsPrefix| + |c1| < |t| && |NoSubsPrefix| + |c2| < |t|
    requires t[|NoSubsPrefix|..|NoSubsPrefix| + |c1|] == c1 && t[|NoSubsPrefix| + |c1|] == '.'
    requires t[|NoSubsPrefix|..|NoSubsPrefix| + |c2|] == c2 && t[|NoSubsPrefix| + |c2|] == '.'
    requires Format.AllDigits(t[|NoSubsPrefix| + |c1| + 1..])
    requires Format.AllDigits(t[|NoSubsPrefix| + |c2| + 1..])
    requires Format.ParseDecimal(t[|NoSubsPrefix| + |c1| + 1..]) == o1
    requires Format.ParseDecimal(t[|NoSubsPrefix| + |c2| + 1..]) == o2
    ensures c1 == c2 && o1 == o2
  {
    var p := |NoSubsPrefix|;
    var d1, d2 := t[p + |c1| + 1..], t[p + |c2| + 1..];
    assert t[p..] == c1 + "." + d1;
    assert t[p..] == c2 + "." + d2;
    SplitBeforeDigits(c1, d1, c2, d2);
  }

  /** The error message names the content type and the event kind it was
      raised for: different pairs never give the same message. */
  lemma NoSubsIdentifiesQuery(c1: string, k1: EventKind, c2: string, k2: EventKind)
    requires NoSubs(c1, k1) == NoSubs(c2, k2)
    ensures c1 == c2 && k1 == k2
  {
    var t := NoSubs(c1, k1).text;
    ReadBackMessage(t, c1, Ordinal(k1), c2, Ordinal(k2));
    OrdinalInjective(k1, k2);
  }

  // ---------------------------------------------------------------------
  // The table
  // ---------------------------------------------------------------------

  /** The subscribers of a pair; a missing entry reads as no subscribers. */
  function Bucket(t: Table, contentType: string, eventType: EventKind): (b: seq<Handle>)
  {
    if contentType in t && eventType in t[contentType] then t[contentType][eventType] else []
  }

  /** The table after handle h is subscribed to (contentType, eventType). */
  function Registered(t: Table, contentType: string, eventType: EventKind, h: Handle): (t': Table)
    ensures t'.Keys == t.Keys + {contentType}
    ensures t'[contentType].Keys == (if contentType in t then t[contentType].Keys else {}) + {eventType}
    ensures Bucket(t', contentType, eventType) == Bucket(t, contentType, eventType) + [h]
    ensures forall c, k :: (c, k) != (contentType, eventType) ==> Bucket(t', c, k) == Bucket(t, c, k)
    ensures forall c :: c in t && c != contentType ==> t'[c] == t[c]
  {
    var inner := if contentType in t then t[contentType] else map[];
    t[contentType := inner[eventType := Bucket(t, contentType, eventType) + [h]]]
  }

  /** Creating the inner map when it is missing and then appending to the
      bucket gives the registered table. */
  lemma LazyCreateThenAppend(t: Table, contentType: string, eventType: EventKind, h: Handle)
    ensures var t1 := if contentType in t then t else t[contentType := map[]];
            var bucket := if eventType in t1[contentType] then t1[contentType][eventType] else [];
            t1[contentType := t1[contentType][eventType := bucket + [h]]] == Registered(t, contentType, eventType, h)
  {
  }

  predicate Distinct(hs: seq<Handle>) {
    forall i, j :: 0 <= i < j < |hs| ==> hs[i] != hs[j]
  }

  /** The registry's invariant, given the slot each handle was put in:
      every bucket that exists is non-empty, and the handles in the table
      are exactly 0 .. |owner| - 1, each sitting in its own slot. */
  ghost predicate WellFormed(t: Table, owner: seq<Slot>) {
    && (forall c, k :: c in t && k in t[c] ==> Bucket(t, c, k) != [])
    && (forall c, k, i :: 0 <= i < |Bucket(t, c, k)| ==>
          Bucket(t, c, k)[i] < |owner| && owner[Bucket(t, c, k)[i]] == Slot(c, k, i))
    && (forall h :: 0 <= h < |owner| ==>
          owner[h].index < |Bucket(t, owner[h].contentType, owner[h].kind)| &&
          Bucket(t, owner[h].contentType, owner[h].kind)[owner[h].index] == h)
  }

  /** A well-formed table never holds one handle twice, within a bucket or
      across buckets. */
  lemma HandlesUnique(t: Table, owner: seq<Slot>, c1: string, k1: EventKind, i: nat,
                      c2: string, k2: EventKind, j: nat)
    requires WellFormed(t, owner)
    requires i < |Bucket(t, c1, k1)| && j < |Bucket(t, c2, k2)|
    requires Bucket(t, c1, k1)[i] == Bucket(t, c2, k2)[j]
    ensures c1 == c2 && k1 == k2 && i == j
  {
    var h := Bucket(t, c1, k1)[i];
    assert owner[h] == Slot(c1, k1, i) && owner[h] == Slot(c2, k2, j);
  }

  lemma BucketDistinct(t: Table, owner: seq<Slot>, c: string, k: EventKind)
    requires WellFormed(t, owner)
    ensures Distinct(Bucket(t, c, k))
  {
  }

  /** The empty registry is well formed. */
  lemma EmptyWellFormed()
    ensures WellFormed(map[], [])
  {
  }

  /** Subscribing the next handle keeps the table well formed. */
  lemma SubscribePreservesWellFormed(t: Table, owner: seq<Slot>, contentType: string, eventType: EventKind)
    requires WellFormed(t, owner)
    ensures WellFormed(Registered(t, contentType, eventType, |owner|),
                       owner + [Slot(contentType, eventType, |Bucket(t, contentType, eventType)|)])
  {
    var h := |owner|;
    var t' := Registered(t, contentType, eventType, h);
    var owner' := owner + [Slot(contentType, eventType, |Bucket(t, contentType, eventType)|)];
    forall c, k | c in t' && k in t'[c]
      ensures Bucket(t', c, k) != []
    {
      if (c, k) != (contentType, eventType) {
        assert c in t && k in t[c];
      }
    }
    forall c, k, i | 0 <= i < |Bucket(t', c, k)|
      ensures Bucket(t', c, k)[i] < |owner'| && owner'[Bucket(t', c, k)[i]] == Slot(c, k, i)
    {
      if (c, k) == (contentType, eventType) && i == |Bucket(t, c, k)| {
        assert Bucket(t', c, k)[i] == h;
      } else {
        assert Bucket(t', c, k)[i] == Bucket(t, c, k)[i];
      }
    }
    forall g | 0 <= g < |owner'|
      ensures owner'[g].index < |Bucket(t', owner'[g].contentType, owner'[g].kind)|
      ensures Bucket(t', owner'[g].contentType, owner'[g].kind)[owner'[g].index] == g
    {
      if g < h {
        var s := owner[g];
        assert owner'[g] == s;
        assert Bucket(t, s.contentType, s.kind)[s.index] == g;
      }
    }
  }

  // ---------------------------------------------------------------------
  // Delivery
  // ---------------------------------------------------------------------

  /** The sends one Emit performs: the event to each handle of hs, in order. */
  function Fanout<T>(hs: seq<Handle>, e: LiveEvent<T>): (d: seq<Delivery<T>>)
    ensures |d| == |hs|
    ensures forall j :: 0 <= j < |hs| ==> d[j] == Delivery(hs[j], e)
  {
    if hs == [] then [] else Fanout(hs[..|hs| - 1], e) + [Delivery(hs[|hs| - 1], e)]
  }

  /** The events the receiver of channel h has been handed, oldest first. */
  function Inbox<T>(log: seq<Delivery<T>>, h: Handle): (r: seq<LiveEvent<T>>)
  {
    if log == [] then []
    else Inbox(log[..|log| - 1], h) + (if log[|log| - 1].to == h then [log[|log| - 1].event] else [])
  }

  /** Sends appended to the log reach a receiver after what it already got. */
  lemma {:induction false} InboxConcat<T>(a: seq<Delivery<T>>, b: seq<Delivery<T>>, h: Handle)
    ensures Inbox(a + b, h) == Inbox(a, h) + Inbox(b, h)
  {
    if b == [] {
      assert a + b == a;
    } else {
      assert (a + b)[..|a + b| - 1] == a + b[..|b| - 1];
      assert (a + b)[|a + b| - 1] == b[|b| - 1];
      InboxConcat(a, b[..|b| - 1], h);
    }
  }

  /** One Emit hands the event exactly once to each handle of a bucket with
      no repeated handle, and nothing to any other handle. */
  lemma {:induction false} InboxOfFanout<T>(hs: seq<Handle>, e: LiveEvent<T>, h: Handle)
    requires Distinct(hs)
    ensures Inbox(Fanout(hs, e), h) == if h in hs then [e] else []
  {
    if hs != [] {
      var front := hs[..|hs| - 1];
      assert Fanout(hs, e)[..|hs| - 1] == Fanout(front, e);
      InboxOfFanout(front, e, h);
      assert h in hs <==> h in front || h == hs[|hs| - 1];
      if h == hs[|hs| - 1] {
        assert h !in front;
      }
    }
  }

  /** What an Emit adds to what a receiver has got. */
  lemma EmitDelivery<T>(log: seq<Delivery<T>>, hs: seq<Handle>, e: LiveEvent<T>, h: Handle)
    requires Distinct(hs)
    ensures Inbox(log + Fanout(hs, e), h) == Inbox(log, h) + (if h in hs then [e] else [])
  {
    InboxConcat(log, Fanout(hs, e), h);
    InboxOfFanout(hs, e, h);
  }

  /** A channel that no send has been addressed to yet has received nothing:
      a log made only of sends to channels created before h holds nothing
      for h. */
  lemma {:induction false} InboxBeforeChannel<T>(log: seq<Delivery<T>>, h: Handle)
    requires forall j :: 0 <= j < |log| ==> log[j].to < h
    ensures Inbox(log, h) == []
  {
    if log != [] {
      var front := log[..|log| - 1];
      assert forall j :: 0 <= j < |front| ==> front[j] == log[j];
      InboxBeforeChannel(front, h);
    }
  }

  // ---------------------------------------------------------------------
  // The registry
  // ---------------------------------------------------------------------

  class Subscriptions<T> {
    /** Content type, then event kind, then the subscribers in order. */
    var subs: Table
    /** How many channels have been made; the next one gets this handle. */
    var next: Handle
    /** Every send that has completed, in the order it happened. */
    var sent: seq<Delivery<T>>
    /** The slot each handle was subscribed into. */
    ghost var owner: seq<Slot>

    ghost predicate Valid()
      reads this
    {
      && next == |owner|
      && WellFormed(subs, owner)
      && (forall j :: 0 <= j < |sent| ==> sent[j].to < next)
    }

    /** The events handed to the receiver of channel h so far. */
    function Received(h: Handle): (r: seq<LiveEvent<T>>)
      reads this
    {
      Inbox(sent, h)
    }

    /** An empty registry: no content types, no channels, nothing sent. */
    constructor New()
      ensures Valid()
      ensures subs == map[] && next == 0 && sent == []
    {
      subs := map[];
      next := 0;
      sent := [];
      owner := [];
      EmptyWellFormed();
    }

    /** Registers a new subscriber for (contentType, eventType) and returns
        the receive side of its channel. */
    method Subscribe(contentType: string, eventType: EventKind) returns (h: Handle)
      requires Valid()
      modifies this
      ensures Valid()
      ensures h == old(next) && next == old(next) + 1
      ensures forall c, k, i :: 0 <= i < |Bucket(old(subs), c, k)| ==> Bucket(old(subs), c, k)[i] != h
      ensures subs == Registered(old(subs), contentType, eventType, h)
      ensures Bucket(subs, contentType, eventType) == Bucket(old(subs), contentType, eventType) + [h]
      ensures sent == old(sent)
      ensures Received(h) == []
    {
      InboxBeforeChannel(sent, next);
      if contentType !in subs {
        subs := subs[contentType := map[]];
      }
      h := next;
      next := next + 1;
      var bucket := if eventType in subs[contentType] then subs[contentType][eventType] else [];
      subs := subs[contentType := subs[contentType][eventType := bucket + [h]]];
      owner := owner + [Slot(contentType, eventType, |bucket|)];
      LazyCreateThenAppend(old(subs), contentType, eventType, h);
      SubscribePreservesWellFormed(old(subs), old(owner), contentType, eventType);
    }

    /** Hands one event to the receiver of channel s. */
    method Notify(s: Handle, data: T, eventType: EventKind)
      requires Valid() && s < next
      modifies this`sent
      ensures Valid()
      ensures sent == old(sent) + [Delivery(s, LiveEvent(eventType, data))]
    {
      sent := sent + [Delivery(s, LiveEvent(eventType, data))];
    }

    /** Hands one event to the receiver of each channel of targets, in order. */
    method NotifyAll(targets: seq<Handle>, data: T, eventType: EventKind)
      requires Valid() && forall j :: 0 <= j < |targets| ==> targets[j] < next
      modifies this`sent
      ensures Valid()
      ensures sent == old(sent) + Fanout(targets, LiveEvent(eventType, data))
    {
      var e := LiveEvent(eventType, data);
      var i := 0;
      while i < |targets|
        invariant 0 <= i <= |targets|
        invariant Valid()
        invariant sent == old(sent) + Fanout(targets[..i], e)
      {
        Notify(targets[i], data, eventType);
        assert targets[..i + 1][..i] == targets[..i];
        i := i + 1;
      }
      assert targets[..|targets|] == targets;
    }

    /** Delivers (eventType, data) to every subscriber of the pair, in order.
        A content type with no entry is not an error; an entry with no bucket
        for the kind is. */
    method Emit(contentType: string, data: T, eventType: EventKind) returns (err: Option<QueryError>)
      requires Valid()
      modifies this`sent
      ensures Valid() && subs == old(subs) && next == old(next)
      ensures contentType !in subs ==> err == None && sent == old(sent)
      ensures contentType in subs && eventType !in subs[contentType] ==>
                err == Some(NoSubs(contentType, eventType)) && sent == old(sent)
      ensures contentType in subs && eventType in subs[contentType] ==>
                err == None &&
                sent == old(sent) + Fanout(subs[contentType][eventType], LiveEvent(eventType, data))
      ensures forall h :: Received(h) == old(Received(h)) +
                (if h in Bucket(subs, contentType, eventType) then [LiveEvent(eventType, data)] else [])
    {
      err := None;
      var e := LiveEvent(eventType, data);
      if contentType in subs {
        var eventTMap := subs[contentType];
        if eventType !in eventTMap {
          err := Some(NoSubs(contentType, eventType));
          return;
        }
        NotifyAll(eventTMap[eventType], data, eventType);
      }
      BucketDistinct(subs, owner, contentType, eventType);
      forall h
        ensures Received(h) == old(Received(h)) +
                  (if h in Bucket(subs, contentType, eventType) then [e] else [])
      {
        EmitDelivery(old(sent), Bucket(subs, contentType, eventType), e, h);
      }
    }
  }

  /** Emitting on a content type nobody subscribed to is not an error. */
  method UnknownContentTypeScenario(payload: int)
  {
    var r := new Subscriptions<int>.New();
    var err := r.Emit("Article", payload, Save);
    assert err == None;
  }

  /** A subscription for Save does not make a Delete bucket: emitting Delete
      on the same content type is a lookup failure. */
  method KindMismatchScenario(payload: int)
  {
    var r := new Subscriptions<int>.New();
    var h := r.Subscribe("Article", Save);
    var err := r.Emit("Article", payload, Delete);
    assert err == Some(NoSubs("Article", Delete));
  }

  /** Two subscribers of one pair both receive the one event emitted. */
  method FanoutScenario(payload: int)
  {
    var r := new Subscriptions<int>.New();
    var h1 := r.Subscribe("Article", Save);
    var h2 := r.Subscribe("Article", Save);
    assert Bucket(r.subs, "Article", Save) == [h1, h2];
    assert h1 != h2;
    var err := r.Emit("Article", payload, Save);
    assert err == None;
    assert r.Received(h1) == [LiveEvent(Save, payload)];
    assert r.Received(h2) == [LiveEvent(Save, payload)];
  }
}
