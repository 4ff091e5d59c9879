/** The message log and its cursor, as `getNewMessages` in the Screen
    component keeps them: a poll sends either no cursor or the stored one,
    and the service's answer is either an authentication failure (a falsy
    result) or a batch that is appended as it comes. */
module MessageSync {

  /** A chat message; only its identity and timestamp matter to the client. */
  datatype Msg = Msg(id: nat, when: int)

  /** The `lastMessage` state: `null`, or the `when` of the last message taken in. */
  datatype Cursor = Null | At(when: int)

  /** What `ApiService.fetchMessages` hands back. */
  datatype FetchResult = AuthFail | Batch(items: seq<Msg>)

  /** The two pieces of Screen state a poll touches. */
  datatype Log = Log(messages: seq<Msg>, lastMessage: Cursor)

  /** The cursor a poll sends: none when asked to ignore the stored one. */
  function RequestCursor(ignoreLastMessage: bool, lastMessage: Cursor): (sent: Cursor)
    ensures ignoreLastMessage ==> sent == Null
    ensures !ignoreLastMessage ==> sent == lastMessage
  {
    if ignoreLastMessage then Null else lastMessage
  }

  /** The messages a fetch result contributes to the log. */
  function Items(r: FetchResult): seq<Msg>
  {
    if r.Batch? then r.items else []
  }

  /** The state after the result of one poll has been taken in. */
  function Apply(s: Log, r: FetchResult): (t: Log)
    ensures t.messages == s.messages + Items(r)
    ensures t == s <==> Items(r) == []
    ensures Items(r) != [] ==> t.lastMessage == At(Items(r)[|Items(r)| - 1].when)
  {
    if r.Batch? && |r.items| > 0 then
      Log(s.messages + r.items, At(r.items[|r.items| - 1].when))
    else
      s
  }

  /** Whether the poll signals `refreshLogin`. */
  predicate SignalsRefresh(r: FetchResult)
  {
    r.AuthFail?
  }

  lemma ApplyBatch(s: Log, items: seq<Msg>)
    requires |items| > 0
    ensures Apply(s, Batch(items)).messages[..|s.messages|] == s.messages
    ensures forall i :: 0 <= i < |items| ==> Apply(s, Batch(items)).messages[|s.messages| + i] == items[i]
    ensures |Apply(s, Batch(items)).messages| == |s.messages| + |items|
    ensures Apply(s, Batch(items)).lastMessage == At(items[|items| - 1].when)
  {
  }

  lemma ApplyNoChange(s: Log, r: FetchResult)
    requires r.AuthFail? || r == Batch([])
    ensures Apply(s, r) == s
  {
  }

  // ---------------------------------------------------------------------
  // A run of polls: what the timer's repeated calls add up to.

  /** The state after taking in the results `rs`, oldest first. */
  function Replay(s: Log, rs: seq<FetchResult>): (t: Log)
    ensures |s.messages| <= |t.messages| && t.messages[..|s.messages|] == s.messages
    decreases |rs|
  {
    if rs == [] then s else Replay(Apply(s, rs[0]), rs[1..])
  }

  /** Every message the results `rs` deliver, in the order they arrive. */
  function Delivered(rs: seq<FetchResult>): seq<Msg>
    decreases |rs|
  {
    if rs == [] then [] else Items(rs[0]) + Delivered(rs[1..])
  }

  /** Over any run of polls, the log is the old log followed by everything
      delivered: no message is dropped, duplicated or reordered, and an
      authentication failure contributes nothing. */
  lemma {:induction false} ReplayLog(s: Log, rs: seq<FetchResult>)
    ensures Replay(s, rs).messages == s.messages + Delivered(rs)
    decreases |rs|
  {
    if rs != [] {
      ReplayLog(Apply(s, rs[0]), rs[1..]);
      assert Apply(s, rs[0]).messages == s.messages + Items(rs[0]);
    }
  }

  /** Over any run of polls, the cursor is the `when` of the last message
      delivered, or what it was if nothing was delivered. */
  lemma {:induction false} ReplayCursor(s: Log, rs: seq<FetchResult>)
    ensures var d := Delivered(rs);
      Replay(s, rs).lastMessage == if d == [] then s.lastMessage else At(d[|d| - 1].when)
    decreases |rs|
  {
    if rs != [] {
      ReplayCursor(Apply(s, rs[0]), rs[1..]);
      var rest := Delivered(rs[1..]);
      assert Delivered(rs) == Items(rs[0]) + rest;
      if rest != [] {
        assert Delivered(rs)[|Delivered(rs)| - 1] == rest[|rest| - 1];
      }
    }
  }

  /** A run of polls that never delivers a message changes nothing. */
  lemma {:induction false} ReplayNothingDelivered(s: Log, rs: seq<FetchResult>)
    requires Delivered(rs) == []
    ensures Replay(s, rs) == s
  {
    ReplayLog(s, rs);
    ReplayCursor(s, rs);
    assert s.messages + [] == s.messages;
  }

  // ---------------------------------------------------------------------
  // What the client gets when the service keeps its side of the protocol.
  // The client itself checks none of this.

  predicate NonDecreasing(ms: seq<Msg>)
  {
    forall i, j :: 0 <= i < j < |ms| ==> ms[i].when <= ms[j].when
  }

  /** The service answers a cursor with an ascending batch strictly after it. */
  predicate Honours(sent: Cursor, items: seq<Msg>)
  {
    NonDecreasing(items) && (sent.At? ==> forall m :: m in items ==> sent.when < m.when)
  }

  /** The cursor is the `when` of the log's last message, and the log is in time order. */
  predicate Coherent(s: Log)
  {
    NonDecreasing(s.messages) &&
    (s.messages == [] ==> s.lastMessage == Null) &&
    (s.messages != [] ==> s.lastMessage == At(s.messages[|s.messages| - 1].when))
  }

  predicate CursorLe(a: Cursor, b: Cursor)
  {
    a.Null? || (b.At? && a.when <= b.when)
  }

  lemma {:induction false} AppendNonDecreasing(a: seq<Msg>, b: seq<Msg>)
    requires NonDecreasing(a) && NonDecreasing(b)
    requires a != [] ==> forall m :: m in b ==> a[|a| - 1].when < m.when
    ensures NonDecreasing(a + b)
  {
    var ab := a + b;
    forall i, j | 0 <= i < j < |ab| ensures ab[i].when <= ab[j].when {
      if j < |a| {
        assert ab[i] == a[i] && ab[j] == a[j];
      } else if |a| <= i {
        assert ab[i] == b[i - |a|] && ab[j] == b[j - |a|];
      } else {
        assert ab[i] == a[i] && ab[j] == b[j - |a|] && b[j - |a|] in b;
        assert a[i].when <= a[|a| - 1].when;
      }
    }
  }

  /** A cursored poll the service answers as it promises keeps the log in
      time order with the cursor at its tail, and never moves the cursor back. */
  lemma {:induction false} CursoredPollKeepsCoherent(s: Log, r: FetchResult)
    requires Coherent(s)
    requires r.Batch? ==> Honours(s.lastMessage, r.items)
    ensures Coherent(Apply(s, r))
    ensures CursorLe(s.lastMessage, Apply(s, r).lastMessage)
  {
    if r.Batch? && |r.items| > 0 {
      AppendNonDecreasing(s.messages, r.items);
      var t := Apply(s, r);
      assert t.messages[|t.messages| - 1] == r.items[|r.items| - 1];
      if s.lastMessage.At? {
        assert r.items[|r.items| - 1] in r.items;
      }
    }
  }

  /** Polling that keeps the stored cursor: as long as the service honours
      every cursor it is sent, the log stays in time order and the cursor
      never moves back. */
  lemma {:induction false} CursoredRunKeepsCoherent(s: Log, rs: seq<FetchResult>)
    requires Coherent(s)
    requires HonouredRun(s, rs)
    ensures Coherent(Replay(s, rs))
    ensures CursorLe(s.lastMessage, Replay(s, rs).lastMessage)
    decreases |rs|
  {
    if rs != [] {
      CursoredPollKeepsCoherent(s, rs[0]);
      CursoredRunKeepsCoherent(Apply(s, rs[0]), rs[1..]);
      var mid := Apply(s, rs[0]).lastMessage;
      var last := Replay(s, rs).lastMessage;
      assert CursorLe(s.lastMessage, mid) && CursorLe(mid, last);
    }
  }

  /** Each result in the run answers the cursor stored just before it. */
  predicate HonouredRun(s: Log, rs: seq<FetchResult>)
    decreases |rs|
  {
    rs == [] ||
    ((rs[0].Batch? ==> Honours(s.lastMessage, rs[0].items)) && HonouredRun(Apply(s, rs[0]), rs[1..]))
  }

  /** The site-change effect resets the cursor and polls without one, but it
      keeps the log it has: the new site's full history lands after the old
      site's messages, so the log need not stay in time order even when the
      service honours the protocol. */
  lemma SiteChangeKeepsOldLog()
    ensures var s := Log([Msg(1, 100)], At(100));
      var reset := Log(s.messages, Null);
      var items := [Msg(2, 5)];
      Coherent(s) && Honours(RequestCursor(true, s.lastMessage), items) &&
      Apply(reset, Batch(items)).messages == [Msg(1, 100), Msg(2, 5)] &&
      !Coherent(Apply(reset, Batch(items)))
  {
    var t := Apply(Log([Msg(1, 100)], Null), Batch([Msg(2, 5)]));
    assert t.messages[0].when > t.messages[1].when;
  }
}
