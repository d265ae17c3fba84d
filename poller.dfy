/**
 * `post_new_cod_if_any`: the poll-and-dedupe step against the one-slot "last seen"
 * marker, its effect over many polls, and the bot object that holds the state.
 */
module Poller {
  import opened Wrappers
  import opened StateStore
  import opened Feed

  /**
   * What `bot.get_channel(CHANNEL_ID_COD)` gives: no channel, or a channel whose
   * `send` either delivers the message or raises.
   */
  datatype Channel = NotFound | Found(delivers: bool)

  /** How one poll ended. */
  datatype Outcome =
    | Idle        // the fetch returned no items
    | Seeded      // cold start: the marker was None and is now the newest id
    | Unchanged   // the newest id is the marker
    | Skipped     // a new id, but no channel: the marker advances without a post
    | Announced   // a new id, posted once, the marker advances
    | SendFailed  // a new id, and `channel.send` raised before the marker was updated

  /** One poll's effect: the new state, the messages posted and whether the state was saved. */
  datatype Transition = Transition(outcome: Outcome, state: map<string, Json>, posted: seq<Item>, saved: bool)

  /** One poll's inputs: the fetched items, newest first, and the channel. */
  datatype PollInput = PollInput(items: seq<Item>, channel: Channel)

  /** What the bot has done so far: its state, every message posted and every state written. */
  datatype History = History(state: map<string, Json>, posted: seq<Item>, saves: seq<map<string, Json>>)

  /** The decision of `post_new_cod_if_any`, given what the fetch returned. */
  function Step(state: map<string, Json>, items: seq<Item>, channel: Channel): (t: Transition)
    // an empty fetch does nothing at all
    ensures items == [] ==> t == Transition(Idle, state, [], false)
    // cold start: nothing is posted and the newest id is remembered
    ensures items != [] && LastSeen(state) == Null ==>
      t.outcome == Seeded && t.posted == [] && t.saved && LastSeen(t.state) == Str(items[0].id)
    // idempotence: the marker's item is not posted again and nothing changes
    ensures items != [] && LastSeen(state) == Str(items[0].id) ==>
      t.outcome == Unchanged && t.state == state && t.posted == [] && !t.saved
    // change detection: one message exactly when the channel delivers it
    ensures items != [] && LastSeen(state) !in {Null, Str(items[0].id)} ==>
      && (t.posted == [items[0]] <==> channel == Found(true))
      && (t.posted == [] <==> channel != Found(true))
      && (t.saved <==> channel != Found(false))
    // after every poll that got past the send, the marker is the newest id
    ensures items != [] && t.outcome != SendFailed ==> LastSeen(t.state) == Str(items[0].id)
    // a poll that saves writes the marker; one that does not leaves the state alone
    ensures t.saved <==> t.outcome in {Seeded, Skipped, Announced}
    ensures t.saved ==> items != [] && MarkerKey in t.state && t.state[MarkerKey] == Str(items[0].id) && t.state.Keys == state.Keys + {MarkerKey}
    ensures !t.saved ==> t.state == state
    // at most one message, and only the newest item
    ensures t.posted == [] || (items != [] && t.posted == [items[0]] && t.outcome == Announced)
    // no key other than the marker changes
    ensures forall k :: k != MarkerKey ==> (k in t.state <==> k in state)
    ensures forall k :: k != MarkerKey && k in state ==> t.state[k] == state[k]
  {
    if items == [] then Transition(Idle, state, [], false)
    else
      var latest := items[0];
      var advanced := state[MarkerKey := Str(latest.id)];
      var lastSeen := LastSeen(state);
      if lastSeen == Null then Transition(Seeded, advanced, [], true)
      else if lastSeen == Str(latest.id) then Transition(Unchanged, state, [], false)
      else match channel
        case NotFound => Transition(Skipped, advanced, [], true)
        case Found(delivers) =>
          if delivers then Transition(Announced, advanced, [latest], true)
          else Transition(SendFailed, state, [], false)
  }

  /** One poll applied to the history: a post is appended, and so is a save. */
  function Apply(h: History, p: PollInput): (h': History)
    ensures h.posted <= h'.posted && |h'.posted| <= |h.posted| + 1
    ensures h.saves <= h'.saves && |h'.saves| <= |h.saves| + 1
    ensures |h'.saves| == |h.saves| + 1 ==> h'.saves[|h.saves|] == h'.state && LastSeen(h'.state).Str?
  {
    var t := Step(h.state, p.items, p.channel);
    History(t.state, h.posted + t.posted, if t.saved then h.saves + [t.state] else h.saves)
  }

  /** Successive polls, oldest first. */
  function Run(h: History, polls: seq<PollInput>): History
    decreases |polls|
  {
    if polls == [] then h else Run(Apply(h, polls[0]), polls[1..])
  }

  /** The id of the newest item of the last poll whose fetch was not empty. */
  function LatestId(polls: seq<PollInput>): Option<string>
    decreases |polls|
  {
    if polls == [] then None
    else match LatestId(polls[1..])
      case Some(id) => Some(id)
      case None => if polls[0].items != [] then Some(polls[0].items[0].id) else None
  }

  /** No message follows another with the same id. */
  predicate AdjacentDistinct(posted: seq<Item>) {
    forall j :: 0 <= j < |posted| - 1 ==> posted[j].id != posted[j + 1].id
  }

  /** `bot.get_channel` finds the channel on every poll (its `send` may still raise). */
  predicate ChannelAlwaysFound(polls: seq<PollInput>) {
    forall i :: 0 <= i < |polls| ==> polls[i].channel.Found?
  }

  /** No `channel.send` raises. */
  predicate NeverRaises(polls: seq<PollInput>) {
    forall i :: 0 <= i < |polls| ==> polls[i].channel != Found(false)
  }

  /** One more poll at the end of a run. */
  lemma {:induction false} RunSnoc(h: History, polls: seq<PollInput>, p: PollInput)
    ensures Run(h, polls + [p]) == Apply(Run(h, polls), p)
    decreases |polls|
  {
    if polls == [] {
      assert [p][1..] == [];
    } else {
      assert (polls + [p])[1..] == polls[1..] + [p];
      RunSnoc(Apply(h, polls[0]), polls[1..], p);
    }
  }

  /** Over any number of polls, no key but the marker is added, removed or changed. */
  lemma {:induction false} RunKeepsOtherKeys(h: History, polls: seq<PollInput>)
    ensures forall k :: k != MarkerKey ==> (k in Run(h, polls).state <==> k in h.state)
    ensures forall k :: k != MarkerKey && k in h.state ==> Run(h, polls).state[k] == h.state[k]
    decreases |polls|
  {
    if polls != [] {
      RunKeepsOtherKeys(Apply(h, polls[0]), polls[1..]);
    }
  }

  /** Over any number of polls, messages and saves are only ever appended, and every message is the newest item of a poll. */
  lemma {:induction false} RunOnlyAppends(h: History, polls: seq<PollInput>)
    ensures h.posted <= Run(h, polls).posted && h.saves <= Run(h, polls).saves
    ensures |Run(h, polls).posted| - |h.posted| <= |polls|
    ensures forall j :: |h.posted| <= j < |Run(h, polls).posted| ==>
      exists i :: 0 <= i < |polls| && polls[i].items != [] && Run(h, polls).posted[j] == polls[i].items[0]
    decreases |polls|
  {
    if polls != [] {
      var h1 := Apply(h, polls[0]);
      var r := Run(h, polls);
      RunOnlyAppends(h1, polls[1..]);
      forall j | |h.posted| <= j < |r.posted|
        ensures exists i :: 0 <= i < |polls| && polls[i].items != [] && r.posted[j] == polls[i].items[0]
      {
        if j < |h1.posted| {
          assert r.posted[j] == h1.posted[j] == polls[0].items[0];
        } else {
          var i :| 0 <= i < |polls[1..]| && polls[1..][i].items != [] && r.posted[j] == polls[1..][i].items[0];
          assert polls[i + 1] == polls[1..][i];
        }
      }
    }
  }

  /**
   * When no send raises, the marker after a run is the newest id of the last poll that
   * fetched anything; a run in which every fetch was empty changes nothing.
   */
  lemma {:induction false} RunMarker(h: History, polls: seq<PollInput>)
    requires NeverRaises(polls)
    ensures LatestId(polls).None? ==> Run(h, polls) == h
    ensures LatestId(polls).Some? ==> LastSeen(Run(h, polls).state) == Str(LatestId(polls).value)
    decreases |polls|
  {
    if polls != [] {
      assert NeverRaises(polls[1..]) by {
        forall i | 0 <= i < |polls[1..]| ensures polls[1..][i].channel != Found(false) {
          assert polls[1..][i] == polls[i + 1];
        }
      }
      RunMarker(Apply(h, polls[0]), polls[1..]);
    }
  }

  /**
   * Once the marker is `x`, polls that keep fetching `x` as the newest item (or nothing)
   * post nothing, save nothing and change nothing, however many there are.
   */
  lemma {:induction false} RepeatedPollsAreQuiet(h: History, polls: seq<PollInput>, x: string)
    requires LastSeen(h.state) == Str(x)
    requires forall i :: 0 <= i < |polls| ==> polls[i].items == [] || polls[i].items[0].id == x
    ensures Run(h, polls) == h
    decreases |polls|
  {
    if polls != [] {
      assert Apply(h, polls[0]) == h;
      forall i | 0 <= i < |polls[1..]| ensures polls[1..][i].items == [] || polls[1..][i].items[0].id == x {
        assert polls[1..][i] == polls[i + 1];
      }
      RepeatedPollsAreQuiet(h, polls[1..], x);
    }
  }

  /**
   * When the channel is found on every poll, the same item is never posted twice in a
   * row: every message after the first changes the id, and the marker is the last
   * message's id. A send that raises changes nothing, so it does not break this.
   */
  lemma {:induction false} NoRepeatedAnnouncement(h: History, polls: seq<PollInput>)
    requires ChannelAlwaysFound(polls)
    requires AdjacentDistinct(h.posted)
    requires h.posted != [] ==> LastSeen(h.state) == Str(h.posted[|h.posted| - 1].id)
    ensures AdjacentDistinct(Run(h, polls).posted)
    ensures Run(h, polls).posted != [] ==> LastSeen(Run(h, polls).state) == Str(Run(h, polls).posted[|Run(h, polls).posted| - 1].id)
    decreases |polls|
  {
    if polls != [] {
      var h1 := Apply(h, polls[0]);
      assert AdjacentDistinct(h1.posted) by {
        if |h1.posted| > |h.posted| && h.posted != [] {
          assert h1.posted[|h.posted|] == polls[0].items[0];
        }
      }
      assert ChannelAlwaysFound(polls[1..]) by {
        forall i | 0 <= i < |polls[1..]| ensures polls[1..][i].channel.Found? {
          assert polls[1..][i] == polls[i + 1];
        }
      }
      NoRepeatedAnnouncement(h1, polls[1..]);
    }
  }

  /** The bot's global `state` dict, with the channel messages and state-file writes it has made. */
  class Bot {
    var state: map<string, Json>
    var sent: seq<Item>
    var saves: seq<map<string, Json>>

    /** Every state written to the file holds a marker. */
    ghost predicate Valid()
      reads this
    {
      forall i :: 0 <= i < |saves| ==> LastSeen(saves[i]).Str?
    }

    function Snapshot(): History
      reads this
    {
      History(state, sent, saves)
    }

    constructor (loaded: map<string, Json>)
      ensures Valid() && state == loaded && sent == [] && saves == []
    {
      state := loaded;
      sent := [];
      saves := [];
    }

    /** The module-level startup: `state = load_state()` then `state.setdefault("COD", None)`. */
    static method Start(file: StateFile) returns (r: Result<Bot, StartupError>)
      ensures r.Failure? ==> Startup(file) == Failure(r.error)
      ensures r.Success? ==> Startup(file) == Success(r.value.state)
      ensures r.Success? ==> fresh(r.value) && r.value.Valid() && r.value.sent == [] && r.value.saves == []
    {
      var loaded := LoadState(file);
      match loaded
      case Failure(e) =>
        r := Failure(e);
      case Success(doc) =>
        if !doc.Obj? {
          r := Failure(NotAnObject);
        } else {
          var bot := new Bot(doc.fields);
          bot.SetDefault(MarkerKey, Null);
          r := Success(bot);
        }
    }

    /** `state.setdefault(key, default)`. */
    method SetDefault(key: string, default: Json)
      requires Valid()
      modifies this
      ensures Valid() && state == WithDefault(old(state), key, default)
      ensures sent == old(sent) && saves == old(saves)
    {
      if key !in state {
        state := state[key := default];
      }
    }

    /** `save_state(state)`: the whole state is written to the file. */
    method SaveState()
      requires Valid()
      requires LastSeen(state).Str?
      modifies this
      ensures Valid() && saves == old(saves) + [state]
      ensures state == old(state) && sent == old(sent)
    {
      saves := saves + [state];
    }

    /** `post_new_cod_if_any` after its fetch: `items` is what `fetch_cod_articles(limit=1)` returned. */
    method Poll(items: seq<Item>, channel: Channel) returns (outcome: Outcome)
      requires Valid()
      modifies this
      ensures Valid()
      ensures Snapshot() == Apply(old(Snapshot()), PollInput(items, channel))
      ensures outcome == Step(old(state), items, channel).outcome
    {
      assert sent + [] == sent;
      if items == [] {
        return Idle;
      }
      var latest := items[0];
      var lastSeen := if MarkerKey in state then state[MarkerKey] else Null;

      if lastSeen == Null {
        state := state[MarkerKey := Str(latest.id)];
        SaveState();
        return Seeded;
      }

      if Str(latest.id) != lastSeen {
        match channel {
          case NotFound =>
            outcome := Skipped;
          case Found(delivers) =>
            if !delivers {
              return SendFailed;
            }
            sent := sent + [latest];
            outcome := Announced;
        }
        state := state[MarkerKey := Str(latest.id)];
        SaveState();
      } else {
        outcome := Unchanged;
      }
    }

    /** `post_new_cod_if_any()`: fetch one item from the feed, then poll. */
    method PostNewIfAny(entries: seq<Entry>, lib: Library, channel: Channel) returns (outcome: Outcome)
      requires Valid()
      modifies this
      ensures Valid()
      ensures Snapshot() == Apply(old(Snapshot()), PollInput(Fetched(entries, 1, lib), channel))
    {
      var items := FetchArticles(entries, 1, lib);
      outcome := Poll(items, channel);
    }

    /** `poll_loop` over a finite number of ticks, each with what its fetch returned. */
    method PollLoop(ticks: seq<PollInput>)
      requires Valid()
      modifies this
      ensures Valid()
      ensures Snapshot() == Run(old(Snapshot()), ticks)
    {
      for i := 0 to |ticks|
        invariant Valid()
        invariant Snapshot() == Run(old(Snapshot()), ticks[..i])
      {
        assert ticks[..i + 1] == ticks[..i] + [ticks[i]];
        RunSnoc(old(Snapshot()), ticks[..i], ticks[i]);
        var _ := Poll(ticks[i].items, ticks[i].channel);
      }
      assert ticks[..|ticks|] == ticks;
    }

    /** The `/cod_last` command: it replies with the newest item, and it never touches the state. */
    method CodLast(entries: seq<Entry>, lib: Library) returns (reply: Option<Item>)
      ensures reply.None? <==> entries == []
      ensures reply.Some? ==> reply.value == ItemOf(entries[0], lib) && reply.value.id == entries[0].link
    {
      var items := FetchArticles(entries, 1, lib);
      if items == [] {
        reply := None;
      } else {
        reply := Some(items[0]);
      }
    }
  }
}
