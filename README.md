# Kotaku Call of Duty news poller — a Dafny model

The bot in `bot.py` reads the Kotaku Call of Duty RSS feed on a timer. It compares the newest article's id
with a one-slot "last seen" marker stored under the key `"COD"`. It posts the article to a Discord channel
only when the id is new. On the very first poll it only remembers the id. The marker lives in a dict that is
read from `last_seen.json` at startup and written back after every change.

This project models that poll-and-dedupe core together with the pure helpers that shape each item:

- `StateStore` (state_store.dfy): loading the state file, `setdefault("COD", None)`, and the marker lookup
  `state.get("COD")`. JSON values are `Null | Str | Obj | Other`.
- `Slicing` (slicing.dfy): Python's `s[:stop]`, including negative and oversized bounds.
- `Summary` (summary.dfy): `clean_summary`, with `str.rstrip()` over Python's whitespace characters and the
  "…" cut.
- `Images` (images.dfy): the precedence chains of `get_article_image` and of the feed loop. Both are
  proved equal to one reference, "the first truthy candidate".
- `Feed` (feed.dfy): feed entries, the items built from them, and the `fetch_cod_articles` loop.
- `Poller` (poller.dfy): the poll decision `Step` and the history of many polls (`Apply`, `Run`). It also
  holds the lemmas about runs and the class `Bot`, which owns the global `state` dict. `Bot` records every
  message posted (`sent`) and every state written to disk (`saves`).

The outside world is given as inputs. The fetched items, the channel lookup and the outcome of
`channel.send` are parameters of a poll. The datatype `Library` bundles BeautifulSoup's text extraction with
`html.unescape`, `html.unescape` alone, `urljoin`, the article page a scrape would see and the clock.
Writing the state file is recorded as a snapshot in `saves`. No file is written.

Three behaviours of the code are worth stating outright:

- `load_state` does not always give `{}`. Only `json.load` is inside the `try` (bot.py:40-44). If the file
  exists but `open` fails, the exception escapes and startup ends (`StartupError.OpenFailed`). A file that
  decodes to JSON other than an object makes `state.setdefault` raise (`StartupError.NotAnObject`).
- The marker is not always the id of the last announced item. A cold start, or a new id with no channel,
  advances the marker without posting anything (bot.py:178-192). What does hold is `RunMarker`: when no
  send raises, the marker is the newest id of the last poll that fetched anything. `NoRepeatedAnnouncement`
  says that the marker equals the id of the last message whenever the channel is found on every poll.
- A `channel.send` that raises leaves the poll before the marker is updated or saved
  (`Outcome.SendFailed`). If the loop keeps running, the next poll tries the same item again.

## Model

| member | source | states |
|---|---|---|
| `StateStore.LastSeen` | bot.py:175 | a missing `"COD"` key reads as `None`; a present key reads as its stored value |
| `StateStore.LoadState` | bot.py:38-45 | a missing or undecodable file gives `{}`; a file that cannot be opened raises; otherwise the decoded JSON is returned as it is |
| `StateStore.WithDefault` | bot.py:52 | `setdefault` adds the key with the default only when it is absent, and keeps every existing value |
| `StateStore.Startup` | bot.py:38-52 | after startup `"COD"` is present and every stored value is kept; the marker is `None` only if the file held none; a missing or undecodable file gives `{"COD": None}`; an unopenable file fails with the `open` error; a non-object file fails; no key besides `"COD"` is added |
| `StateStore.ReloadSavedState` | bot.py:47-52 | a state that holds a marker, once saved and reloaded at the next start, is the same mapping |
| `Slicing.Prefix` | bot.py:73 | `s[:stop]` is a prefix of `s`, with Python's length for non-negative and negative `stop` |
| `Summary.RStrip` | bot.py:73 | `rstrip()` gives a prefix that does not end in whitespace, and only whitespace is removed |
| `Summary.CleanSummary` | bot.py:63-74 | an empty summary gives `""`; text within `max_len` is unchanged; longer text becomes a prefix of at most `max_len-1` characters, minus trailing whitespace, plus "…"; for `max_len >= 1` the result is at most `max_len` long |
| `Images.FirstTruthy` | bot.py:84-97 | the reference precedence: `None` iff no candidate is truthy, otherwise the earliest truthy candidate |
| `Images.GetArticleImage` | bot.py:76-100 | `None` iff the request or parse raised, the status is not 200, or no candidate is truthy; otherwise the first truthy of og:image, twitter:image and the first `<img src>`, joined to the article URL |
| `Images.EntryImage` | bot.py:126-133 | first `media_content` url, then first `media_thumbnail` url; an absent, empty or missing value falls through to the scraped image |
| `Feed.ItemOf` | bot.py:113-144 | an item's id and url are both the entry's link; the summary is at most 320 characters; the time is the published time or the fetch time; the image follows the feed-then-scrape precedence |
| `Feed.Fetched` | bot.py:107-146 | at most `limit` items (Python slice semantics), in feed order, one per leading entry |
| `Feed.FetchArticles` | bot.py:107-146 | the loop builds exactly the specified items, at most `limit`, each with `id == url == link` |
| `Poller.Step` | bot.py:169-192 | empty fetch: no change and no save; cold start: no post, marker seeded and saved; same id: no change; new id: one post iff the channel delivers, marker advanced and saved unless the send raised; no other key changes |
| `Poller.Apply` | bot.py:169-192 | a poll only appends to the posted messages and saved states, at most one of each, and every saved state holds a marker |
| `Poller.RunSnoc` | bot.py:204-208 | a run of polls followed by one more poll is that poll applied to the run |
| `Poller.RunKeepsOtherKeys` | bot.py:179-192 | over any number of polls, no key other than `"COD"` is added, removed or changed |
| `Poller.RunOnlyAppends` | bot.py:185-192 | over any number of polls the history only grows, at most one message per poll, and every message is the newest item of some poll |
| `Poller.RunMarker` | bot.py:178-192 | when no send raises, the marker after a run is the newest id of the last non-empty fetch, and a run of empty fetches changes nothing |
| `Poller.RepeatedPollsAreQuiet` | bot.py:185 | once the marker is `x`, any number of polls whose newest id is `x` post nothing, save nothing and change nothing |
| `Poller.NoRepeatedAnnouncement` | bot.py:185-192 | when the channel is found on every poll (a raising send changes nothing), no two consecutive messages carry the same id, and the marker is the last message's id |
| `Poller.Bot.constructor` | bot.py:51 | the bot starts with the loaded state, nothing posted and nothing saved |
| `Poller.Bot.Start` | bot.py:38-52 | module startup succeeds or fails exactly as `Startup` says, with the state it gives |
| `Poller.Bot.SetDefault` | bot.py:52 | `state.setdefault` updates the state in place as `WithDefault` says |
| `Poller.Bot.SaveState` | bot.py:47-49 | a save records the whole current state and changes nothing else |
| `Poller.Bot.Poll` | bot.py:171-192 | the in-place update of `state`, the messages sent and the saves are exactly `Apply` of one poll; the outcome is `Step`'s |
| `Poller.Bot.PostNewIfAny` | bot.py:169-192 | fetching one item and polling updates the bot as `Apply` says for the items `Fetched(entries, 1)` |
| `Poller.Bot.PollLoop` | bot.py:204-208 | a finite run of the timer loop leaves the bot as `Run` says |
| `Poller.Bot.CodLast` | bot.py:195-202 | `/cod_last` replies "no news" iff the feed is empty, otherwise with the newest item, and cannot change the state |

## Left out

- Discord: the client, intents, command tree, `on_ready`, slash-command registration and embed layout
  (`build_embed`, `KOTAKU_LOGO`) are not modelled. A message is recorded as the item it was built from.
- Network and parsing libraries: `requests`, `feedparser`, BeautifulSoup, `html.unescape` and `urljoin` are
  inputs (`Library`, `PageFetch`, `Entry`), not models of those libraries.
- `Images.GetArticleImage`: an exception raised by `urljoin` itself, which the `try` would also catch, is not
  modelled, because `urljoin` is a total input function.
- `fmt_timestamp` and `datetime` construction: times are whole seconds, and the UTC formatting is not modelled.
- `Feed.ItemOf`: every entry of one fetch shares one clock reading (`Library.now`), while the source reads
  the clock once per entry without a published time; with `limit=1` only one entry is read.
- JSON serialisation in `save_state`/`load_state`: a save is a recorded snapshot. `ReloadSavedState`
  assumes that `json.dump` followed by `json.load` gives back the same object.
- An exception escaping `fetch_cod_articles` (for example an entry without a `link`) is not modelled. A poll
  receives the items the fetch returned.
- A failing `save_state` (a disk error after the marker was updated in memory) is not modelled.
- What `tasks.loop` does after an exception escapes a poll (`SendFailed`) is not modelled. `PollLoop`
  carries on with the next tick.
- Configuration from `.env` (`DISCORD_TOKEN`, `CHANNEL_ID_COD`, `POLL_SECONDS`) is not modelled.
- Concurrency: the model is sequential. The unguarded interleaving of `poll_loop` with the commands is not
  modelled. `/cod_last` never writes the state, so it cannot lose an update.
