/**
 * The chat view component: its state cells, the socket event handlers,
 * the history apply and the user actions. Every `socket.emit` is recorded
 * in `outbox`; every answer from the HTTP API (login token, history,
 * upload URL) and the clock are parameters of the step that consumes them.
 */
module ChatApp {
  import opened Wrappers
  import Feed
  import Render

  /** What the view sends over the socket: the `join`, `message` and
      `typing` emits. */
  datatype Emit =
    | Join(channel: string, username: string)
    | SendText(channel: string, username: string, text: string)
    | Typing(channel: string, username: string, typing: bool)

  const DEFAULT_CHANNEL := "general"

  /** Some `join` has been emitted. */
  ghost predicate HasJoin(out: seq<Emit>)
  {
    exists i :: 0 <= i < |out| && out[i].Join?
  }

  /** The outbox only grows, so a `join` once emitted stays there. */
  lemma HasJoinAppend(out: seq<Emit>, more: seq<Emit>)
    requires HasJoin(out)
    ensures HasJoin(out + more)
  {
    var i :| 0 <= i < |out| && out[i].Join?;
    assert (out + more)[i] == out[i];
  }

  class App {
    var username: string
    var token: Option<string>
    var channel: string
    var messages: seq<Feed.Message>
    var text: string
    var typingUsers: Feed.TypingMap
    /** Everything emitted on the socket so far, oldest first. */
    var outbox: seq<Emit>

    /** The typing map holds only `true` and never the key "__proto__",
        and a stored token was obtained by a login that announced itself
        with a `join`. */
    ghost predicate Valid()
      reads this
    {
      Feed.AllTrue(typingUsers) && Feed.PROTO_KEY !in typingUsers &&
      (token.Some? ==> HasJoin(outbox))
    }

    /** The part of the state that the realtime feed writes. */
    function FeedView(): Feed.FeedState
      reads this
    {
      Feed.FeedState(messages, typingUsers)
    }

    /** `!token`: the login form is shown while no token, or an empty
        one, is stored. */
    predicate ShowsLogin()
      reads this
      ensures Valid() && !ShowsLogin() ==> HasJoin(outbox)
    {
      token.None? || token.value == ""
    }

    constructor ()
      ensures Valid() && ShowsLogin()
      ensures username == "" && token == None && channel == DEFAULT_CHANNEL
      ensures messages == [] && text == "" && typingUsers == map[] && outbox == []
    {
      username := "";
      token := None;
      channel := DEFAULT_CHANNEL;
      messages := [];
      text := "";
      typingUsers := map[];
      outbox := [];
    }

    /** The login form's input. */
    method SetUsername(v: string)
      requires Valid()
      modifies this`username
      ensures Valid() && username == v
    {
      username := v;
    }

    /** A click in the channel list; the history fetch it starts is
        completed separately by `ApplyHistory`. */
    method SelectChannel(c: string)
      requires Valid()
      modifies this`channel
      ensures Valid() && channel == c
    {
      channel := c;
    }

    // -------------------------------------------------------------------
    // Socket events

    method ReceiveMessage(msg: Feed.Message)
      requires Valid()
      modifies this`messages
      ensures Valid()
      ensures messages == Feed.Append(old(messages), msg)
      ensures FeedView() == Feed.Step(old(FeedView()), Feed.Received(msg))
    {
      messages := Feed.Append(messages, msg);
    }

    method ReceiveSystem(noticeText: string, clock: Feed.Clock)
      requires Valid()
      modifies this`messages
      ensures Valid()
      ensures messages == Feed.Append(old(messages), Feed.SystemMessage(noticeText, clock))
      ensures FeedView() == Feed.Step(old(FeedView()), Feed.SystemNotice(noticeText, clock))
    {
      messages := Feed.Append(messages, Feed.SystemMessage(noticeText, clock));
    }

    method ReceiveTyping(user: string, typing: bool)
      requires Valid()
      modifies this`typingUsers
      ensures Valid()
      ensures typingUsers == Feed.TypingUpdate(old(typingUsers), user, typing)
      ensures FeedView() == Feed.Step(old(FeedView()), Feed.TypingNotice(user, typing))
    {
      typingUsers := Feed.TypingUpdate(typingUsers, user, typing);
    }

    // -------------------------------------------------------------------
    // History

    /** The history response for `requested` replaces the whole sequence
        whatever channel is active by then; a failed fetch is ignored. */
    method ApplyHistory(requested: string, response: Option<seq<Feed.Message>>)
      requires Valid()
      modifies this`messages
      ensures Valid()
      ensures response.Some? ==> messages == response.value
      ensures response.None? ==> messages == old(messages)
    {
      if response.Some? {
        messages := response.value;
      }
    }

    // -------------------------------------------------------------------
    // User actions

    /** `response` is the token the auth API answers with, or None when
        the request fails; it is not consulted for an empty username,
        for which no request is made. */
    method DoLogin(response: Option<string>)
      requires Valid()
      modifies this`token, this`outbox
      ensures Valid()
      ensures username == "" || response.None? ==> token == old(token) && outbox == old(outbox)
      ensures username != "" && response.Some? ==>
        token == response && outbox == old(outbox) + [Join(channel, username)]
    {
      if username == "" {
        return;
      }
      if response.Some? {
        token := response;
        outbox := outbox + [Join(channel, username)];
        assert outbox[|outbox| - 1].Join?;
        assert HasJoin(outbox);
      }
    }

    method SendMessage()
      requires Valid()
      modifies this`text, this`outbox
      ensures Valid()
      ensures old(text) == "" ==> text == old(text) && outbox == old(outbox)
      ensures old(text) != "" ==>
        text == "" &&
        outbox == old(outbox) + [SendText(channel, username, old(text)), Typing(channel, username, false)]
    {
      if text == "" {
        return;
      }
      ghost var before := outbox;
      ghost var sent := text;
      outbox := outbox + [SendText(channel, username, text)];
      text := "";
      outbox := outbox + [Typing(channel, username, false)];
      assert outbox == before + [SendText(channel, username, sent), Typing(channel, username, false)];
      if token.Some? {
        HasJoinAppend(before, [SendText(channel, username, sent), Typing(channel, username, false)]);
      }
    }

    /** The composer's input: every edit re-announces the typing state. */
    method OnTyping(v: string)
      requires Valid()
      modifies this`text, this`outbox
      ensures Valid()
      ensures text == v
      ensures outbox == old(outbox) + [Typing(channel, username, |v| > 0)]
    {
      if token.Some? {
        HasJoinAppend(outbox, [Typing(channel, username, |v| > 0)]);
      }
      text := v;
      outbox := outbox + [Typing(channel, username, |v| > 0)];
    }

    /** `selected` says whether the file input holds a file; `upload` is
        the URL the upload API answers with, or None when it fails. */
    method SendFile(selected: bool, upload: Option<string>)
      requires Valid()
      modifies this`outbox
      ensures Valid()
      ensures !selected || upload.None? ==> outbox == old(outbox)
      ensures selected && upload.Some? ==>
        outbox == old(outbox) + [SendText(channel, username, upload.value)]
    {
      if !selected {
        return;
      }
      if upload.Some? {
        if token.Some? {
          HasJoinAppend(outbox, [SendText(channel, username, upload.value)]);
        }
        outbox := outbox + [SendText(channel, username, upload.value)];
      }
    }
  }

  // ---------------------------------------------------------------------
  // Whole sessions

  /** Logging in as "alice" with the answer "T" stores the token and emits
      exactly one join for the default channel. */
  method LoginRoundTrip() returns (app: App)
    ensures app.Valid() && !app.ShowsLogin()
    ensures app.token == Some("T") && app.outbox == [Join(DEFAULT_CHANNEL, "alice")]
  {
    app := new App();
    app.SetUsername("alice");
    app.DoLogin(Some("T"));
  }

  /** The stale-response race: a history answer for "general" that lands
      after the switch to "random" overwrites the random history. */
  method ChannelSwitchRace(general: seq<Feed.Message>, random: seq<Feed.Message>) returns (app: App)
    ensures app.Valid()
    ensures app.channel == "random" && app.messages == general
  {
    app := new App();
    app.SetUsername("alice");
    app.DoLogin(Some("T"));
    app.SelectChannel("random");
    app.ApplyHistory("random", Some(random));
    app.ApplyHistory(DEFAULT_CHANNEL, Some(general));
  }

  /** An uploaded URL travels untouched: it is the text of the emitted
      message and, once echoed back, of the last displayed message, which
      is drawn as an image exactly when the URL passes the image test. */
  method UploadRoundTrip(url: string, id: string, ts: string) returns (app: App)
    ensures app.Valid()
    ensures app.outbox == [Join(DEFAULT_CHANNEL, "alice"), SendText(DEFAULT_CHANNEL, "alice", url)]
    ensures app.messages == [Feed.Message(id, "alice", url, ts)]
    ensures Render.IsImageUrl(app.messages[0].text) <==> Render.IsImageUrl(url)
  {
    app := new App();
    app.SetUsername("alice");
    app.DoLogin(Some("T"));
    app.SendFile(true, Some(url));
    var sent := app.outbox[1];
    app.ReceiveMessage(Feed.Message(id, sent.username, sent.text, ts));
  }

  /** A typed text reaches the socket only through `SendMessage`, and the
      local sequence stays untouched until the server echoes it. */
  method ComposeAndSend(v: string) returns (app: App)
    ensures app.Valid()
    ensures app.text == "" && app.messages == []
    ensures v == "" ==> app.outbox == [Join(DEFAULT_CHANNEL, "alice"), Typing(DEFAULT_CHANNEL, "alice", false)]
    ensures v != "" ==> app.outbox == [Join(DEFAULT_CHANNEL, "alice"), Typing(DEFAULT_CHANNEL, "alice", true),
                                       SendText(DEFAULT_CHANNEL, "alice", v), Typing(DEFAULT_CHANNEL, "alice", false)]
  {
    app := new App();
    app.SetUsername("alice");
    app.DoLogin(Some("T"));
    app.OnTyping(v);
    app.SendMessage();
  }
}
