/**
 * The realtime feed of the chat view: the copy-based updaters that the
 * socket handlers pass to `setMessages` and `setTypingUsers`, and what a
 * whole stream of pushed events does to the message sequence and the
 * typing map.
 */
module Feed {
  import opened Wrappers

  /** A chat message as the server delivers it and as the view renders it. */
  datatype Message = Message(id: string, username: string, text: string, ts: string)

  /** The client's wall-clock readings when a system notice arrives:
      milliseconds since the epoch for the id, and ISO-8601 text for the
      timestamp. The clock is read twice, so the two need not agree. */
  datatype Clock = Clock(millis: nat, iso: string)

  /** Username to "is typing"; the handler only ever stores `true`. */
  type TypingMap = map<string, bool>

  /** The one key a plain JavaScript object does not store by assignment:
      `obj["__proto__"] = true` goes to the prototype setter, which
      ignores a non-object value. */
  const PROTO_KEY := "__proto__"

  /** The events the server pushes over the socket. */
  datatype Inbound =
    | Received(msg: Message)
    | SystemNotice(text: string, clock: Clock)
    | TypingNotice(username: string, typing: bool)

  /** The part of the view's state that the feed writes. */
  datatype FeedState = FeedState(messages: seq<Message>, typing: TypingMap)

  const SYSTEM_USER := "system"
  const SYSTEM_ID_PREFIX := "sys"

  // ---------------------------------------------------------------------
  // `message` event: prev => [...prev, msg]

  function Append(prev: seq<Message>, msg: Message): (r: seq<Message>)
    ensures |r| == |prev| + 1
    ensures r[..|prev|] == prev
    ensures r[|prev|] == msg
  {
    prev + [msg]
  }

  // ---------------------------------------------------------------------
  // `system` event: a message synthesized from the payload and the clock

  function Digit(d: nat): (c: char)
    requires d < 10
    ensures '0' <= c <= '9'
  {
    (d + '0' as int) as char
  }

  function DigitValue(c: char): nat
  {
    if '0' <= c <= '9' then c as int - '0' as int else 0
  }

  /** The decimal text JavaScript produces for a non-negative integer. */
  function DecimalString(n: nat): (s: string)
    ensures |s| > 0
    ensures forall i :: 0 <= i < |s| ==> '0' <= s[i] <= '9'
    ensures (|s| == 1) == (n < 10)
    ensures n >= 10 ==> s[0] != '0'
    decreases n
  {
    if n < 10 then [Digit(n)] else DecimalString(n / 10) + [Digit(n % 10)]
  }

  /** Reads a string of decimal digits back as a number. */
  function DecimalValue(s: string): nat
  {
    if s == [] then 0 else 10 * DecimalValue(s[..|s| - 1]) + DigitValue(s[|s| - 1])
  }

  lemma {:induction false} DecimalRoundTrip(n: nat)
    ensures DecimalValue(DecimalString(n)) == n
  {
    if n >= 10 {
      var s := DecimalString(n);
      assert s[..|s| - 1] == DecimalString(n / 10);
      DecimalRoundTrip(n / 10);
    }
  }

  /** Distinct clock readings give distinct ids (two notices in the same
      millisecond still collide). */
  lemma DecimalInjective(m: nat, n: nat)
    ensures DecimalString(m) == DecimalString(n) ==> m == n
  {
    DecimalRoundTrip(m);
    DecimalRoundTrip(n);
  }

  /** The message a `system` notice becomes: sender "system", the notice's
      text, an id "sys" followed by the decimal text of the millisecond
      reading, and the ISO reading as timestamp. */
  function SystemMessage(text: string, clock: Clock): (m: Message)
    ensures m.username == SYSTEM_USER && m.text == text && m.ts == clock.iso
    ensures |m.id| > |SYSTEM_ID_PREFIX| && m.id[..|SYSTEM_ID_PREFIX|] == SYSTEM_ID_PREFIX
    ensures forall i :: |SYSTEM_ID_PREFIX| <= i < |m.id| ==> '0' <= m.id[i] <= '9'
    ensures |m.id| > |SYSTEM_ID_PREFIX| + 1 ==> m.id[|SYSTEM_ID_PREFIX|] != '0'
    ensures DecimalValue(m.id[|SYSTEM_ID_PREFIX|..]) == clock.millis
  {
    var digits := DecimalString(clock.millis);
    DecimalRoundTrip(clock.millis);
    assert (SYSTEM_ID_PREFIX + digits)[|SYSTEM_ID_PREFIX|..] == digits;
    Message(SYSTEM_ID_PREFIX + digits, SYSTEM_USER, text, clock.iso)
  }

  /** Two system messages get the same id exactly when their millisecond
      readings are equal, so notices in the same millisecond collide. */
  lemma SystemIdsCollide(t1: string, c1: Clock, t2: string, c2: Clock)
    ensures SystemMessage(t1, c1).id == SystemMessage(t2, c2).id <==> c1.millis == c2.millis
  {
    var m1, m2 := SystemMessage(t1, c1), SystemMessage(t2, c2);
    if m1.id == m2.id {
      assert m1.id[|SYSTEM_ID_PREFIX|..] == m2.id[|SYSTEM_ID_PREFIX|..];
    }
  }

  // ---------------------------------------------------------------------
  // `typing` event: copy the map, then set the key to true or delete it

  ghost predicate AllTrue(m: TypingMap)
  {
    forall u :: u in m ==> m[u]
  }

  /** `copy[username] = true` or `delete copy[username]` on a copy of
      `prev`, with JavaScript's treatment of the key "__proto__". */
  function TypingUpdate(prev: TypingMap, username: string, typing: bool): (r: TypingMap)
    ensures username != PROTO_KEY ==> (username in r <==> typing)
    ensures username == PROTO_KEY ==> (username in r <==> typing && username in prev)
    ensures typing && username != PROTO_KEY ==> r[username]
    ensures forall u :: u != username ==> (u in r <==> u in prev)
    ensures forall u :: u != username && u in r ==> r[u] == prev[u]
    ensures AllTrue(prev) ==> AllTrue(r)
    ensures PROTO_KEY !in prev ==> PROTO_KEY !in r
  {
    if !typing then prev - {username}
    else if username == PROTO_KEY then prev
    else prev[username := true]
  }

  lemma TypingUpdateIdempotent(m: TypingMap, username: string, typing: bool)
    ensures TypingUpdate(TypingUpdate(m, username, typing), username, typing)
         == TypingUpdate(m, username, typing)
  {
  }

  /** Notices about two different users can be applied in either order. */
  lemma TypingUpdateCommutes(m: TypingMap, u: string, a: bool, v: string, b: bool)
    requires u != v
    ensures TypingUpdate(TypingUpdate(m, u, a), v, b) == TypingUpdate(TypingUpdate(m, v, b), u, a)
  {
    var l := TypingUpdate(TypingUpdate(m, u, a), v, b);
    var r := TypingUpdate(TypingUpdate(m, v, b), u, a);
    assert l.Keys == r.Keys;
  }

  // ---------------------------------------------------------------------
  // A stream of pushed events, handled strictly in arrival order

  /** One pushed event, dispatched to its handler's updater. */
  function Step(s: FeedState, ev: Inbound): (r: FeedState)
    ensures r.messages == s.messages + Delivered(ev)
    ensures !ev.TypingNotice? ==> r.typing == s.typing
  {
    match ev
    case Received(m) => s.(messages := Append(s.messages, m))
    case SystemNotice(t, c) => s.(messages := Append(s.messages, SystemMessage(t, c)))
    case TypingNotice(u, b) => s.(typing := TypingUpdate(s.typing, u, b))
  }

  /** The state after handling `evs` one by one, the last event last. */
  function Replay(s: FeedState, evs: seq<Inbound>): (r: FeedState)
    ensures s.messages <= r.messages
    ensures (forall i :: 0 <= i < |evs| ==> evs[i].TypingNotice?) ==> r.messages == s.messages
    decreases |evs|
  {
    if evs == [] then s else Step(Replay(s, evs[..|evs| - 1]), evs[|evs| - 1])
  }

  /** The messages an event contributes to the feed. */
  function Delivered(ev: Inbound): seq<Message>
  {
    match ev
    case Received(m) => [m]
    case SystemNotice(t, c) => [SystemMessage(t, c)]
    case TypingNotice(_, _) => []
  }

  /** All messages the events contribute, in arrival order. */
  function AllDelivered(evs: seq<Inbound>): seq<Message>
    decreases |evs|
  {
    if evs == [] then [] else Delivered(evs[0]) + AllDelivered(evs[1..])
  }

  lemma {:induction false} AllDeliveredSnoc(evs: seq<Inbound>, ev: Inbound)
    ensures AllDelivered(evs + [ev]) == AllDelivered(evs) + Delivered(ev)
    decreases |evs|
  {
    var t := evs + [ev];
    if evs == [] {
      assert t[1..] == [];
    } else {
      assert t[0] == evs[0] && t[1..] == evs[1..] + [ev];
      AllDeliveredSnoc(evs[1..], ev);
      calc {
        AllDelivered(t);
        Delivered(evs[0]) + AllDelivered(evs[1..] + [ev]);
        Delivered(evs[0]) + (AllDelivered(evs[1..]) + Delivered(ev));
        (Delivered(evs[0]) + AllDelivered(evs[1..])) + Delivered(ev);
      }
    }
  }

  /** No reordering, no drops: the sequence after a stream of events is
      the sequence before it followed by exactly the messages delivered. */
  lemma {:induction false} ReplayMessages(s: FeedState, evs: seq<Inbound>)
    ensures Replay(s, evs).messages == s.messages + AllDelivered(evs)
    decreases |evs|
  {
    if evs != [] {
      var init := evs[..|evs| - 1];
      var last := evs[|evs| - 1];
      assert evs == init + [last];
      ReplayMessages(s, init);
      AllDeliveredSnoc(init, last);
    }
  }

  /** True when `ev` is a typing notice about `u`. */
  predicate AboutTyping(ev: Inbound, u: string)
  {
    ev.TypingNotice? && ev.username == u
  }

  /** No typing notice about `u` comes after position `i` of `evs`
      (`i == -1`: none at all). */
  ghost predicate QuietAfter(evs: seq<Inbound>, u: string, i: int)
  {
    forall j :: i < j < |evs| && 0 <= j ==> !AboutTyping(evs[j], u)
  }

  /** The typing state of `u` that a stream `evs` leaves behind, read
      off the stream: its last typing notice about `u` said `true`, or
      there was none and `u` was present before. */
  ghost predicate TypingExpected(before: TypingMap, evs: seq<Inbound>, u: string)
  {
    if u == PROTO_KEY then ProtoExpected(before, evs) else
    (exists i :: 0 <= i < |evs| && evs[i] == TypingNotice(u, true) && QuietAfter(evs, u, i))
    || (u in before && QuietAfter(evs, u, -1))
  }

  /** "__proto__" is never added, and leaves only on a `false` notice. */
  ghost predicate ProtoExpected(before: TypingMap, evs: seq<Inbound>)
  {
    PROTO_KEY in before && forall j :: 0 <= j < |evs| ==> evs[j] != TypingNotice(PROTO_KEY, false)
  }

  lemma StepProtoKey(st: FeedState, ev: Inbound)
    ensures PROTO_KEY in Step(st, ev).typing <==>
      PROTO_KEY in st.typing && ev != TypingNotice(PROTO_KEY, false)
  {
  }

  lemma ProtoExpectedSnoc(before: TypingMap, evs: seq<Inbound>)
    requires |evs| > 0
    ensures ProtoExpected(before, evs) <==>
      ProtoExpected(before, evs[..|evs| - 1]) && evs[|evs| - 1] != TypingNotice(PROTO_KEY, false)
  {
    assert forall j :: 0 <= j < |evs| - 1 ==> evs[..|evs| - 1][j] == evs[j];
  }

  lemma {:induction false} ReplayProtoKey(s: FeedState, evs: seq<Inbound>)
    ensures PROTO_KEY in Replay(s, evs).typing <==> ProtoExpected(s.typing, evs)
    decreases |evs|
  {
    if evs != [] {
      var n := |evs| - 1;
      ReplayProtoKey(s, evs[..n]);
      StepProtoKey(Replay(s, evs[..n]), evs[n]);
      ProtoExpectedSnoc(s.typing, evs);
    }
  }

  lemma ExpectedAfterTrue(before: TypingMap, evs: seq<Inbound>, u: string)
    requires u != PROTO_KEY
    requires |evs| > 0 && evs[|evs| - 1] == TypingNotice(u, true)
    ensures TypingExpected(before, evs, u)
  {
    assert QuietAfter(evs, u, |evs| - 1);
  }

  lemma ExpectedAfterFalse(before: TypingMap, evs: seq<Inbound>, u: string)
    requires u != PROTO_KEY
    requires |evs| > 0 && evs[|evs| - 1] == TypingNotice(u, false)
    ensures !TypingExpected(before, evs, u)
  {
    var n := |evs| - 1;
    assert AboutTyping(evs[n], u);
    forall i | 0 <= i < |evs| && evs[i] == TypingNotice(u, true)
      ensures !QuietAfter(evs, u, i)
    {
      assert i < n;
    }
  }

  lemma ExpectedAfterOther(before: TypingMap, evs: seq<Inbound>, u: string)
    requires u != PROTO_KEY
    requires |evs| > 0 && !AboutTyping(evs[|evs| - 1], u)
    ensures TypingExpected(before, evs, u) <==> TypingExpected(before, evs[..|evs| - 1], u)
  {
    var n := |evs| - 1;
    var init := evs[..n];
    forall i | -1 <= i < n
      ensures QuietAfter(evs, u, i) <==> QuietAfter(init, u, i)
    {
      if QuietAfter(init, u, i) {
        forall j | i < j < |evs| && 0 <= j ensures !AboutTyping(evs[j], u) {
          if j < n { assert evs[j] == init[j]; }
        }
      }
    }
    if exists i :: 0 <= i < |evs| && evs[i] == TypingNotice(u, true) && QuietAfter(evs, u, i) {
      var i :| 0 <= i < |evs| && evs[i] == TypingNotice(u, true) && QuietAfter(evs, u, i);
      assert i < n && init[i] == TypingNotice(u, true);
    }
  }

  /** The typing map after a stream holds exactly the users whose most
      recent typing notice said `true`, plus the users already present
      about whom no notice arrived ("__proto__" apart, see ProtoExpected). */
  lemma {:induction false} ReplayTyping(s: FeedState, evs: seq<Inbound>, u: string)
    ensures u in Replay(s, evs).typing <==> TypingExpected(s.typing, evs, u)
    decreases |evs|
  {
    if u == PROTO_KEY {
      ReplayProtoKey(s, evs);
    } else if evs == [] {
      assert QuietAfter(evs, u, -1);
    } else {
      var last := evs[|evs| - 1];
      ReplayTyping(s, evs[..|evs| - 1], u);
      if AboutTyping(last, u) {
        if last.typing {
          ExpectedAfterTrue(s.typing, evs, u);
        } else {
          ExpectedAfterFalse(s.typing, evs, u);
        }
      } else {
        ExpectedAfterOther(s.typing, evs, u);
      }
    }
  }

  /** The feed keeps the typing map's only value `true` whatever arrives. */
  lemma {:induction false} ReplayKeepsAllTrue(s: FeedState, evs: seq<Inbound>)
    requires AllTrue(s.typing)
    ensures AllTrue(Replay(s, evs).typing)
    decreases |evs|
  {
    if evs != [] {
      ReplayKeepsAllTrue(s, evs[..|evs| - 1]);
    }
  }
}
