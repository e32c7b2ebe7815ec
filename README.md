# open-infinite: a verified model of the game logic

open-infinite is an "infinite craft" style combination game. Players drag
two items together. The server looks the pair up in a combination cache
keyed by the unordered, normalised pair of names, and otherwise asks a
language-model generator. An accepted answer (a name and a single emoji) is
cached and handed to the active gamemode. The gamemode adds the item to the
player's pool, reports the result and, in the Bingo modes, marks a shared
board and looks for winners.

This Dafny project models the server-side game logic:

- the combination cache and its key;
- the resolution of a combination, without the HTTP exchange;
- the player directory;
- the five gamemodes (Classic, Shared, Bingo, Shared-Bingo, Lockout-Bingo);
- the message templates and the `Item`/`Combo` objects;
- the two offline converters that fill the caches from legacy data.

It proves the rules these parts promise.

The modules:

| module | file | models |
|---|---|---|
| `Util` | util.dfy | Option, decimal digits, `join`, sequences without repeats |
| `JsonValue` | json.dfy | decoded JSON values, Python truthiness, `dict.get` |
| `Text` | text.dfy | `str.strip`, ASCII lowercase, string order, `find`/`rfind`, `split` |
| `Keys` | keys.dfy | the combination key (`_normalize_key`) |
| `ComboStore` | cache.dfy | `Cache`: lookup, add, load |
| `Resolver` | resolver.dfy | the pure parts of `ask_llm`: reply content, fence stripping, acceptance |
| `Players` | players.dfy | the player directory (`players`, `sid_to_uuid`) and its updates |
| `Templates` | templates.dfy | the message constructors and their JSON shape |
| `Pools` | pools.dfy | default pool, the pool a player sees, cleaning of stored pools, append-if-absent |
| `GameObjects` | gameobjects.dfy | `Item` and `Combo`: equality, hash, text |
| `Rules` | rules.dfy | Bingo configuration, board draw, click/mark/claim rules, board invariants, countdown, winner news, what `check_winner` decides, the board after publishing or marking |
| `Board` | board.dfy | winning lines, the owner tally, leaders |
| `Gamemodes` | gamemodes.dfy | class `Gamemode`: pools, fields, clicks, marking, winners, countdown, join |
| `Game` | game.dfy | class `GameController`: join, disconnect, rename, `request_combo`, `ask_llm` |
| `ConvertMega` | convert_mega.dfy | merging a legacy save (`cache`, `meta_store`) into the caches |
| `ConvertWords` | convert_words.dfy | merging `a=b=result` lines into the caches |

How state is modelled:

- Stateful objects are classes whose fields the methods update: the cache's
  two dictionaries, a gamemode's pools, board, winners and timer, and the
  controller's directory.
- Every gamemode operation returns the messages it asked `send` to deliver,
  in order, as a `seq<Sent>`. A `Sent` is addressed to one player or
  broadcast.
- The loops of the source are `while` loops proved against a specification
  function: cleaning a pool, sending the item list or field to every player,
  marking and claiming cells, tallying owners, finding leaders and lines,
  and the two converters.

Behaviour worth knowing before reading the contracts:

- `add_combo` overwrites the stored emoji of a name, so the last write wins.
  Only `convert_mega.py` keeps an existing emoji.
- Nothing records a negative answer. A rejected or failed generation is not
  cached, so the same pair asks the generator again.
- Result names are stored as given; no alias resolution is done.
- A disconnect does not check that the sid is the player's current one
  (see Findings).
- There is no bingo count per player and no free centre cell. A player with
  any line wins, and the final Bingo tally ranks by owned cells only.
- Players have no colour. The Bingo field and Lockout claims read
  `player.color`, which `Player` does not have, so colours are an opaque
  value of the model.

## Model

| member | source | states |
|---|---|---|
| Keys.Canon | cache.py:10-11 | defines the canonical name: a missing name counts as empty, then it is trimmed and lowercased |
| Keys.NormalizeKey | cache.py:9-13 | defines the combination key: the two canonical names in string order, joined by a vertical bar |
| Keys.KeySymmetric | cache.py:9-13 | the key of (a, b) equals the key of (b, a) |
| Keys.MissingIsEmpty | cache.py:10-11 | a missing name (None) gives the same key as the empty name |
| Keys.KeyOfCanonical | cache.py:10-11 | the key depends only on the trimmed, lowercased names |
| Keys.CanonIdempotent | cache.py:10-11 | trimming and lowercasing again changes nothing |
| Keys.KeyIsMinBarMax | cache.py:12-13 | the key is first + "\|" + second, where first <= second in string order and {first, second} are the two normalised names |
| Keys.KeySplitsBack | cache.py:12-13 | for names without "\|", splitting the key on "\|" gives back the two normalised names, ordered |
| Keys.KeyDeterminesPair | cache.py:9-13 | for names without "\|", equal keys mean the same unordered pair of normalised names |
| Keys.BarNamesCanCollide | cache.py:13 | names containing "\|" can collide: ("a\|b", "c") and ("a", "b\|c") share a key |
| ComboStore.Unwrap | cache.py:20-22 | a list emoji is read as its first element, an empty list or a missing entry as None, anything else as itself |
| ComboStore.GetCombo | cache.py:15-23 | None exactly when the key is absent or holds an empty result; otherwise the stored name with its unwrapped emoji |
| ComboStore.GetComboSymmetric | cache.py:15-23 | lookup does not depend on the order of the two items |
| ComboStore.GetAfterAdd | cache.py:15-28 | after adding (a, b, n, e) with n non-empty, lookups of (a, b) and (b, a) both give {n, e} |
| ComboStore.LaterEmojiReplacesEarlier | cache.py:28 | adding the same name twice with different emojis leaves the later emoji (last write wins) |
| ComboStore.Cache.AddTwiceThenGet | cache.py:15-28 | two `add_combo` calls storing one name with two emojis, then `get_combo` on the first pair: the later emoji is reported (last write wins) |
| ComboStore.Cache.constructor | cache.py:5-7 | both dictionaries start empty |
| ComboStore.Cache.AddCombo | cache.py:25-28 | exactly one key changes in each dictionary, and both orders of the pair then look up to the new result |
| ComboStore.Cache.Load | cache.py:30-39 | a decoded file replaces both dictionaries, an absent section giving {}; a missing or undecodable file changes nothing |
| Resolver.IsSingleEmoji | game.py:243-245 | defines a single emoji: one grapheme cluster of at most three code points |
| Resolver.Accepts | game.py:247 | defines an acceptable answer: a string name of 1 to 40 characters and a string emoji that is a single emoji |
| Resolver.Content | game.py:213-222 | content is found only in a JSON object whose `choices` is a non-empty list |
| Resolver.ContentOfReplyBody | game.py:213-222 | the usual reply shape choices[0].message.content yields its text |
| Resolver.StripFence | game.py:225-227 | the result never has surrounding whitespace |
| Resolver.FenceRemoved | game.py:225-227 | a reply fenced as ```info, newline, body, newline, ``` is reduced to the trimmed body |
| Resolver.FencedIsStripped | game.py:225-226 | such a fenced reply is already trimmed and starts and ends with the fence |
| Resolver.FencedNewline | game.py:227 | its first newline is the one after the info string |
| Resolver.FencedInner | game.py:227 | the slice between the first newline and the last fence is the body and its newline |
| Resolver.FindFirst | game.py:227 | `find` returns the first position of a character |
| Resolver.UnfencedOnlyTrimmed | game.py:225-226 | content that does not start with a fence after trimming is only trimmed |
| Resolver.StripFenceSettles | game.py:225-227 | stripping a result that no longer starts with a fence changes nothing |
| Resolver.Interpret | game.py:141-257 | a result is produced only from a 200 reply, and only when its name and emoji pass the acceptance rule |
| Resolver.FailuresGiveNothing | game.py:141-236 | a missing key, a network error, a non-200 status, a non-JSON body, missing content, and content that is not a JSON object all give None |
| Resolver.AcceptedIff | game.py:243-253 | a parsed object is returned (unchanged) if and only if its name is a string of length 1..40 and its emoji a single grapheme cluster of at most 3 code points |
| Resolver.FencedAnswerSameAsPlain | game.py:225-229 | a fenced answer is interpreted exactly like the same answer without the fence |
| Players.Joined | game.py:96-98 | defines the directory after a join: the player stored under its uuid (a known uuid keeps its place in the listing) and the new sid mapped to it |
| Players.Disconnected | game.py:101-107 | defines the directory after a disconnect as written: the sid's mapping is dropped, and a non-empty uuid it named is deleted from the players when present |
| Players.DisconnectedGuarded | game.py:101-107 | defines the corrected disconnect: as Disconnected, except that the player is deleted only while the closing sid is its current one |
| Players.Renamed | game.py:115-119 | defines the directory after a rename: an unknown uuid changes nothing, a known one gets the new name and keeps its sid and place |
| Players.Empty | game.py:34-35 | the empty directory is consistent |
| Players.Replaced | game.py:92-95 | the connection closed on join is the earlier sid of the same uuid, if any |
| Players.JoinedMeaning | game.py:91-98 | join stores Player(uuid, name, sid) under uuid and maps sid to uuid; other players and other sids are unchanged; a known uuid keeps its place |
| Players.RejoinKeepsOneEntry | game.py:96-97 | rejoining replaces the entry: the number of players and their order do not change |
| Players.UnknownSidIsNoop | game.py:102-104 | disconnecting an unknown sid changes nothing |
| Players.DisconnectedMeaning | game.py:101-107 | a known sid's mapping is removed and the player it names is deleted; every other player stays |
| Players.StaleDisconnectDropsReconnected | game.py:101-107 | as written: the old sid's disconnect after a reconnect deletes the reconnected player and leaves the new sid dangling |
| Players.StaleDisconnectExample | game.py:101-107 | join s1, rejoin s2, disconnect s1 leaves no players and s2 mapped |
| Players.GuardedDisconnectKeepsReconnected | game.py:101-107 | corrected: a guarded disconnect of the stale sid keeps the reconnected player, and disconnecting the current sid removes them |
| Players.GuardedAgreesOnCurrentSid | game.py:101-107 | the guarded disconnect keeps the directory consistent and behaves as written whenever the sid is current |
| Players.RenamedMeaning | game.py:115-119 | renaming an unknown uuid changes nothing; otherwise only that player's name changes |
| Players.PlayerName | game.py:122-124 | the name of a known uuid, None for an unknown one |
| Players.DisplayName | gamemodes/gamemode.py:98-99 | never empty; an unknown player (or an empty name) reads as "Unbekannt" |
| Templates.PairResultOf | templates.py:5-8 | `pair_result` carries the item and the new flag |
| Templates.PairEmptyResult | templates.py:11-12 | `pair_empty_result` carries no item and is not new |
| Templates.Send | gamemodes/gamemode.py:92-96 | a message with a (non-empty) uuid goes to exactly that player, otherwise to all |
| Templates.ItemsJson | templates.py:27-32 | one `{name, emoji}` object per item |
| Templates.ItemsRoundTrip | templates.py:31-32 | item lists read back from their JSON unchanged |
| Templates.PairRoundTrip | templates.py:5-12 | every `pair_result` decodes back to itself |
| Templates.ItemsMsgRoundTrip | templates.py:27-28 | every `item_list` message decodes back to itself |
| Templates.EncodeDecode | templates.py:5-44 | every encodable message decodes back to itself |
| Templates.PairResultWire | templates.py:5-12 | `is_new: True` is present exactly when the result is new, and `new_item` is null exactly when there is no item |
| Templates.NoDataMessages | templates.py:39-44 | `clear` and `retry` carry no data |
| Templates.TypeTags | templates.py:5-44 | each constructor tags its payload with its fixed type string |
| Templates.Encode | templates.py:5-44 | defines each message's JSON: a type tag and its data as the constructors build them (a `pair_result` carries `is_new: True` only when new); an item without a string name has no encoding |
| Templates.Decode | templates.py:5-44 | defines how a client reads a message back from that JSON, by its type tag |
| GameObjects.SameItem | gameobjects.py:6-7 | defines item equality: the names are compared, the emojis are not |
| GameObjects.ItemHash | gameobjects.py:9-10 | defines an item's hash as the hash of its name |
| GameObjects.SameCombo | gameobjects.py:25-26 | defines combination equality: both inputs equal, in order; the result is ignored |
| GameObjects.ComboHash | gameobjects.py:28-29 | defines a combination's hash as the sum of its inputs' hashes |
| GameObjects.SameItemIsEquivalence | gameobjects.py:6-7 | item equality compares names only and is an equivalence |
| GameObjects.SameItemSameHash | gameobjects.py:6-10 | equal items have equal hashes |
| GameObjects.ItemText | gameobjects.py:12-16 | an item renders as its name |
| GameObjects.SameComboSameHash | gameobjects.py:25-29 | equal combos have equal hashes |
| GameObjects.SwapKeepsHashNotEquality | gameobjects.py:25-29 | swapping the two inputs keeps the hash, but keeps equality only when both names are equal |
| GameObjects.ResultIgnored | gameobjects.py:25-26 | combo equality ignores the result |
| GameObjects.ComboText | gameobjects.py:31-35 | a combo renders as "a + b = r" |
| GameObjects.WaterFireExample | gameobjects.py:25-35 | "Water + Fire = Steam" differs from its swap but hashes the same |
| Pools.AddIfAbsent | gamemodes/classic.py:60-64 | defines a pool after an add: unchanged when an equal item is present, else the item appended |
| Pools.Holds | gamemodes/bingo.py:136-137 | defines holding a word: some pool entry has that name |
| Pools.PoolIn | gamemodes/classic.py:54-58 | defines the pool a player sees: the shared pool, the player's own pool, or the default pool a first access creates |
| Pools.DefaultPool | gamemodes/classic.py:18-19 | four distinct items: Water, Fire, Earth, Air |
| Pools.DefaultPoolHolds | gamemodes/classic.py:18-19 | the default pool holds exactly the four starting names |
| Pools.Clean | gamemodes/classic.py:31-34 | cleaning never grows a list and keeps only entries with a truthy name |
| Pools.CleanEntries | gamemodes/classic.py:31-34 | the cleaning loop computes Clean |
| Pools.CleanMeaning | gamemodes/shared.py:28-31 | cleaning keeps exactly the objects with a truthy name, in order, and is empty exactly when none survives |
| Pools.LoadedPools | gamemodes/classic.py:27-36 | only uuids with a non-empty cleaned list are loaded |
| Pools.LoadedPoolsMeaning | gamemodes/classic.py:27-36 | a uuid is loaded if and only if its value is a list with a surviving entry, and then with the cleaned list |
| Pools.LoadedSharedPool | gamemodes/shared.py:21-39 | the shared pool is never empty |
| Pools.LoadedSharedPoolMeaning | gamemodes/shared.py:21-39 | a missing file, a non-list, or a list without surviving entries gives the default pool; otherwise the cleaned list |
| Pools.AddIfAbsentMeaning | gamemodes/classic.py:60-64 | the pool grows by the item if and only if no equal entry is present; earlier entries keep their places |
| Pools.AddIfAbsentIdempotent | gamemodes/classic.py:62-63 | adding the same item twice is adding it once |
| Pools.AddIfAbsentDistinct | gamemodes/shared.py:55-56 | a pool without repeats stays without repeats |
| Pools.SameNameOtherEmojiIsAdded | templates.py:31-32 | the same name with another emoji is a new entry |
| Pools.AddIfAbsentGrows | gamemodes/classic.py:60-64 | pools only grow, as prefixes |
| Pools.HoldsMember | gamemodes/bingo.py:136-137 | a pool holding an item holds its name |
| Pools.HoldsGrows | gamemodes/bingo.py:136-137 | what a pool holds it keeps holding as it grows |
| Rules.Source | gamemodes/bingo.py:46-49 | defines the words a board is drawn from: the configured words when there are any, else the names in the item cache |
| Rules.ValidDraw | gamemodes/bingo.py:55-65 | defines the possible boards: the right number of texts; with too few words, all of them padded with "?" in any order; otherwise a sub-multiset of the words |
| Rules.Toggle | gamemodes/bingo.py:143-153 | defines a click on a cell: an owner clicking leaves; anyone else joins, unless lockout keeps an owned cell |
| Rules.Mark | gamemodes/bingo.py:169-179 | defines automatic marking of a cell: a cell showing the name gains the player, unless the player is already an owner or lockout keeps an owned cell |
| Rules.Claim | gamemodes/lockout_bingo.py:100-104 | defines a Lockout claim of a cell: an open cell showing the name becomes done, owned by the player in the player's colour |
| Rules.ColourOf | gamemodes/lockout_bingo.py:81-83 | defines a claim's colour: the listed player's colour, black for a player no longer listed |
| Rules.Clock | gamemodes/lockout_bingo.py:60-64 | defines the clock text `Zeit: MM:SS`, minutes and seconds with two digits each |
| Rules.FinalNews | gamemodes/bingo.py:201-220 | defines the news of the final Bingo check: one leader is announced with the top count, several leaders draw, no owners gives "Keine Treffer!" |
| Rules.AnnounceText | gamemodes/bingo.py:239-240 | defines the winner news `GEWINNER: <name> - <reason>` |
| Rules.MostItems | gamemodes/bingo.py:215 | defines the reason `Meiste Items (<k>)!` |
| Rules.DrawText | gamemodes/bingo.py:217-218 | defines the draw news `Unentschieden: <names joined by ", "> (<k>)` |
| Rules.Announces | gamemodes/bingo.py:77 | defines the seconds that are announced: whole minutes and the last ten seconds |
| Rules.Beeps | gamemodes/bingo.py:75-82 | defines the seconds announced while counting down from s to 1, in order |
| Rules.ModeNames | gamemodes/bingo.py:18-22 | Bingo's name is built from lockout and manual ("Bingo (Manual)" by default); Shared-Bingo prefixes "Shared "; Lockout is "Lockout Bingo" |
| Rules.Pad | gamemodes/bingo.py:59 | k question marks |
| Rules.PadMultiset | gamemodes/bingo.py:59 | the padding is k copies of "?" |
| Rules.Listing | gamemodes/bingo.py:59 | every multiset of words can be listed |
| Rules.SubOfSize | gamemodes/bingo.py:63 | a sample of any size up to the word count exists |
| Rules.DrawExists | gamemodes/bingo.py:56-63 | for every word source and board size a valid draw exists |
| Rules.DrawProvenance | gamemodes/bingo.py:56-63 | every drawn text is a source word or "?", and only source words when there are enough |
| Rules.FreshCells | gamemodes/bingo.py:65 | one unowned cell per drawn text |
| Rules.FreshLockCells | gamemodes/lockout_bingo.py:49 | one open, unowned Lockout cell per drawn text |
| Rules.Texts | gamemodes/bingo.py:65 | the texts of the cells, in order |
| Rules.LockTexts | gamemodes/lockout_bingo.py:49 | the texts of the Lockout cells, in order |
| Rules.ToggleMeaning | gamemodes/bingo.py:142-153 | a click changes the cell exactly when it is allowed (leaving is always allowed, joining an owned cell is not under lockout), and then flips only the clicker's membership; lockout keeps at most one owner |
| Rules.ToggleTwice | gamemodes/bingo.py:143-153 | without lockout, two clicks restore the cell |
| Rules.Progressed | gamemodes/bingo.py:166-180 | progress marks every cell, each cell independently |
| Rules.ProgressedMeaning | gamemodes/bingo.py:166-180 | a cell with the item's name gains the player unless lockout keeps it for another; other cells are unchanged; owners only grow |
| Rules.ProgressedIdempotent | gamemodes/bingo.py:166-180 | marking twice with the same item is marking once |
| Rules.Claimed | gamemodes/lockout_bingo.py:97-104 | claiming treats every cell independently |
| Rules.ClaimedMeaning | gamemodes/lockout_bingo.py:97-104 | an open cell with the item's name becomes done, owned by the player, in the player's colour; a done cell never changes; other cells are unchanged |
| Rules.ClaimsAreFinal | gamemodes/lockout_bingo.py:100 | a second claim of the same name, by anyone, changes nothing |
| Rules.BeepsMeaning | gamemodes/bingo.py:75-82 | over a countdown from s, the announced seconds are exactly those in 1..s that are whole minutes or at most 10 |
| Rules.BeepCount | gamemodes/bingo.py:75-82 | a countdown from s announces s div 60 + min(s, 10) times |
| Rules.ClockReadsBack | gamemodes/lockout_bingo.py:60-64 | "Zeit: MM:SS" has two digits each, and reads back as s div 60 and s mod 60 |
| Rules.Names | gamemodes/bingo.py:214-218 | the display names of the leaders, in order |
| Rules.FinalNewsCases | gamemodes/bingo.py:203-220 | no owners gives "Keine Treffer!"; a single leader is announced (everyone else owns fewer cells); several leaders get the draw message naming all of them |
| Rules.FirstWithLine | gamemodes/lockout_bingo.py:117-120 | the first owner found has a line; None means nobody has one |
| Board.Row | gamemodes/bingo.py:224-226 | defines row i: the indices i*n to (i+1)*n - 1 |
| Board.Col | gamemodes/bingo.py:228-230 | defines column i: the indices i, i+n, ... below n*n |
| Board.Diag | gamemodes/bingo.py:232-233 | defines the main diagonal: i*n + i for i below n |
| Board.Anti | gamemodes/bingo.py:234-235 | defines the anti-diagonal: i*n + (n-1-i) for i below n |
| Board.HasLine | gamemodes/bingo.py:222-236 | defines a line: the set covers a full row, a full column or one of the two diagonals |
| Board.MaxCount | gamemodes/bingo.py:204-206 | defines the top count: the largest number of cells owned by a listed player, 0 for none |
| Board.FirstLeader | gamemodes/lockout_bingo.py:122-128 | defines Lockout's final winner: the first listed player to reach the top count, none when that count is 0 |
| Board.HasBingoIndices | gamemodes/bingo.py:222-236 | true if and only if the set contains a full row, a full column, the diagonal or the anti-diagonal |
| Board.StrideSize | gamemodes/bingo.py:224-234 | a line of n positions has n distinct indices |
| Board.LineSizes | gamemodes/bingo.py:224-234 | rows, columns and both diagonals have n cells each |
| Board.RowIsBlock | gamemodes/bingo.py:224-227 | row i is the block i*n .. i*n+n-1 |
| Board.FewCellsNoLine | gamemodes/bingo.py:222-236 | fewer than n owned cells never make a line |
| Board.LineMonotone | gamemodes/bingo.py:222-236 | owning more cells never loses a line |
| Board.FiveByFiveExamples | gamemodes/bingo.py:222-236 | on 5x5, the top row and the diagonal are lines; no set of under 5 cells is |
| Board.OwnedUpToMeaning | gamemodes/bingo.py:187-191 | the indices collected for a player are exactly the cells they own |
| Board.OwnedByMeaning | gamemodes/bingo.py:187-191 | the same over the whole board; a player is an owner if and only if they own a cell |
| Board.RecordOwner | gamemodes/bingo.py:189-191 | recording one owner of a cell keeps the tally right; an owner seen for the first time is appended, so owners stay in order of the first cell they marked |
| Board.RecordOwners | gamemodes/bingo.py:188-191 | recording all owners of a cell extends the tally by that cell, keeping owners in order of first marked cell |
| Board.CollectOwners | gamemodes/bingo.py:187-191 | the tally lists each owner once, with exactly the cells they own, in order of the first cell they marked (owners first seen in one cell in any order, as that cell's owner set iterates) |
| Board.FirstFromMeaning | gamemodes/bingo.py:187-191 | the search from a cell finds the first cell from there that the player has marked, or the end |
| Board.FirstOwnedMeaning | gamemodes/bingo.py:187-191 | FirstOwned is the least index of a cell the player has marked |
| Board.FirstOwnedBefore | gamemodes/bingo.py:187-191 | an owner of one of the first k cells first marked a cell before k |
| Board.FirstSeenAppend | gamemodes/bingo.py:189-191 | appending an owner first seen at the current cell keeps the order by first marked cell |
| Board.WithCount | gamemodes/bingo.py:208-210 | the players with a given count, in tally order |
| Board.MaxCountIsMax | gamemodes/bingo.py:204-206 | the maximum is an upper bound and is attained |
| Board.NoneAtCount | gamemodes/bingo.py:208-210 | nobody is listed at a count above everyone's |
| Board.Leaders | gamemodes/bingo.py:204-212 | the loops compute the top count and the players at it |
| Board.LeadersOutcome | gamemodes/bingo.py:204-212 | there are leaders if and only if there are owners; leaders own at least as much as anyone, the rest strictly less |
| Board.FirstLeaderMeaning | gamemodes/lockout_bingo.py:122-128 | the winner is the first player reaching the top count (strict `>`), and there is none exactly when the top count is 0 |
| Board.FirstLeaderLoop | gamemodes/lockout_bingo.py:122-128 | the loop computes the top count and that first leader |
| Board.LockOwnedUpToMeaning | gamemodes/lockout_bingo.py:111-115 | the indices collected for a Lockout player are exactly the cells whose (non-empty) owner is that player |
| Board.RecordLockOwner | gamemodes/lockout_bingo.py:112-115 | recording one cell keeps the Lockout tally right and its owners strictly in order of first claimed cell |
| Board.CollectLockOwners | gamemodes/lockout_bingo.py:111-115 | the Lockout tally lists each owner once, with exactly the cells they own, strictly in order of the first cell they claimed |
| Board.LockFirstFromMeaning | gamemodes/lockout_bingo.py:111-115 | the search from a cell finds the first cell from there that the player has claimed, or the end |
| Board.LockFirstOwnedMeaning | gamemodes/lockout_bingo.py:111-115 | LockFirstOwned is the least index of a cell the player has claimed |
| Board.LockFirstOwnedBefore | gamemodes/lockout_bingo.py:111-115 | an owner of one of the first k cells first claimed a cell before k |
| Board.LockFirstSeenAppend | gamemodes/lockout_bingo.py:112-115 | appending the owner of the current cell, seen for the first time, keeps the strict order by first claimed cell |
| Board.LockOrderHead | gamemodes/lockout_bingo.py:111-115 | two strict first-claim orders of the same owners start with the same owner |
| Board.LockOrderSame | gamemodes/lockout_bingo.py:111-115 | two strict first-claim orders of the same owners are equal |
| Board.LockOrderUnique | gamemodes/lockout_bingo.py:111-115 | the same, for owner sets given as set comprehensions |
| Rules.LockTallyUnique | gamemodes/lockout_bingo.py:111-115 | a Lockout board determines its tally: owner order and owned cells |
| Rules.EarnedKept | gamemodes/bingo.py:136-137 | as pools grow, every owner of a cell keeps holding its word |
| Rules.EarnedToggle | gamemodes/bingo.py:136-153 | an allowed click keeps every owner holding the cell's word, and lockout keeps single owners |
| Rules.EarnedMark | gamemodes/bingo.py:172-178 | marking one cell keeps every owner holding the cell's word |
| Rules.EarnedProgressed | gamemodes/bingo.py:166-180 | automatic progress keeps every owner holding the cell's word, keeps the texts and, under lockout, single owners |
| Rules.DoneOwnedClaimed | gamemodes/lockout_bingo.py:97-104 | claims keep "done if and only if owned" and the texts |
| Rules.BoardsValid | gamemodes/bingo.py:135-153 | defines the boards' invariant over the mode's fields: every owner of a Bingo cell holds its word, lockout keeps single owners, a Lockout cell is done exactly when owned, and an initialized board has n*n cells (an uninitialized one is empty or all "?") |
| Rules.Republished | gamemodes/bingo.py:100-102 | defines the Bingo board after the field is broadcast: unchanged when the board was initialized or nobody is connected; otherwise `_ensure_initialized` runs again, so a board without words is re-blanked (its marks are lost) and a board with words becomes a fresh draw |
| Rules.LockRepublished | gamemodes/lockout_bingo.py:85-87 | the same for the Lockout cells |
| Rules.Tallied | gamemodes/bingo.py:187-191 | defines the tally `check_winner` collects: each owner once, in order of first marked cell, with exactly the cells they own |
| Rules.LockTallied | gamemodes/lockout_bingo.py:111-115 | defines the Lockout tally: each non-empty owner once, in order of first claimed cell, with exactly the cells they claimed |
| Rules.BingoChecked | gamemodes/bingo.py:193-220 | defines the outcome of Bingo's `check_winner`: every tally owner with a line who had not won is announced and joins the winners in tally order; end-on-bingo stops at the first and stops the timer; the final check adds the tally news |
| Rules.LockoutChecked | gamemodes/lockout_bingo.py:117-133 | defines the outcome of Lockout's `check_winner`: the first owner with a line is announced and the timer stops; otherwise the final check names the first owner at the top count, or "Unentschieden!" when nobody owns a cell |
| Rules.Rechecked | gamemodes/bingo.py:155-157 | defines what follows the fields of a board change: the first field starts the timer (and a countdown when it was inactive), then the non-final winner check over the new board's tally |
| Rules.ItemMarked | gamemodes/bingo.py:159-184 | defines the board after a player gains an item: automatic Bingo marks the cells showing its name, Lockout claims them in the player's colour, and a change is republished; other boards are untouched |
| Rules.MarksChange | gamemodes/bingo.py:166-182 | defines whether gaining an item changes the board: automatic Bingo marks a cell, or Lockout claims one |
| Gamemodes.ItemsTo | gamemodes/shared_bingo.py:23-25 | one item list per connected player |
| Gamemodes.Views | gamemodes/bingo.py:104-114 | one view per cell |
| Gamemodes.FieldsTo | gamemodes/gamemode.py:60-62 | one field per connected player |
| Rules.NewLines | gamemodes/bingo.py:193-197 | the new winners found are tally owners with a line who had not won |
| Rules.NewLinesComplete | gamemodes/bingo.py:193-197 | every tally owner with a line who had not won is found |
| Rules.NewLinesPrefix | gamemodes/bingo.py:193-197 | the winners found in a prefix of the tally come first |
| Rules.NewLinesStep | gamemodes/bingo.py:193-197 | one more tally entry adds that owner exactly when they are new and have a line |
| Rules.Announcements | gamemodes/bingo.py:238-242 | one announcement per winner |
| Rules.AnnouncementsAppend | gamemodes/bingo.py:238-242 | announcements concatenate |
| Rules.AnnouncedPrefix | gamemodes/bingo.py:193-201 | announcing one more winner extends the messages and the winners by that winner |
| Gamemodes.Gamemode.Valid | gamemodes/bingo.py:135-153 | defines the mode's invariant: every owner of a Bingo cell holds its word, Bingo cells under lockout have at most one owner, a Lockout cell is done exactly when it has an owner, and an initialized board has size*size cells (an uninitialized one is empty or all "?") |
| Gamemodes.Gamemode.InitStep | gamemodes/bingo.py:43-66 | defines the effect of `_ensure_initialized`: nothing once initialized, an all-"?" board that stays uninitialized when there are no words, else a fresh draw that initializes the board |
| Gamemodes.Gamemode.StartStep | gamemodes/bingo.py:68-72 | defines the effect of `_ensure_started`: the timer becomes active, and when it was inactive a countdown starts unless one runs (Bingo only while time is left) |
| Gamemodes.Gamemode.constructor | gamemodes/classic.py:12-16 | a new mode has its mode name, the loaded pools (Shared: the loaded shared pool, saved once), an empty board, no winners, and an inactive timer set to the configured seconds |
| Gamemodes.Gamemode.GetItemPool | gamemodes/classic.py:54-58 | the player's pool; a first access creates the default pool and saves; no pool changes |
| Gamemodes.Gamemode.AddToSharedPool | gamemodes/shared.py:54-57 | the shared pool gains the item if absent; Shared saves on a change, Shared-Bingo never |
| Gamemodes.Gamemode.AddToOwnPool | gamemodes/classic.py:60-64 | only the player's pool changes, gaining the item if absent; one save for a created pool and one for a change |
| Gamemodes.Gamemode.AddItemToPool | gamemodes/classic.py:60-64 | the player's pool gains the item if absent; every pool only grows; saves are counted as the modes save |
| Gamemodes.Gamemode.ItemListMsgs | gamemodes/gamemode.py:71-72 | one list to the player, or one per connected player in the shared modes |
| Gamemodes.Gamemode.BroadcastItemList | gamemodes/shared.py:63-65 | the player's own pool to that player, or the shared pool to every connected player |
| Gamemodes.Gamemode.FieldMsgs | gamemodes/gamemode.py:52-58 | one field per listed player, none in a mode without a field |
| Gamemodes.Gamemode.EnsureInitialized | gamemodes/bingo.py:43-66 | an initialized board never changes; no words give an all-"?" board of n*n cells that stays uninitialized; otherwise a valid draw of n*n fresh cells initializes it |
| Gamemodes.Gamemode.EnsureStarted | gamemodes/bingo.py:68-72 | an inactive timer becomes active and starts a countdown unless one is running (Bingo only with time left, Lockout always) |
| Gamemodes.Gamemode.SendBingoField | gamemodes/gamemode.py:52-58 | a mode without a field sends nothing and changes nothing; otherwise the board is prepared and the viewer's field is sent; a prepared board is not touched |
| Gamemodes.Gamemode.SendFieldsFrom | gamemodes/gamemode.py:60-62 | the loop sends one field per connected player |
| Gamemodes.Gamemode.BroadcastBingoField | gamemodes/gamemode.py:60-62 | one field per connected player, the board prepared by the first |
| Gamemodes.Gamemode.AnnounceWinner | gamemodes/bingo.py:238-242 | one broadcast news naming the player and the reason; the timer stops if asked |
| Gamemodes.Gamemode.FindNewLines | gamemodes/bingo.py:193-197 | the loop finds exactly the new winners, in tally order |
| Gamemodes.Gamemode.AnnounceLines | gamemodes/bingo.py:193-201 | winners only grow; each new winner is announced once; with end-on-bingo only the first is, and the timer stops |
| Gamemodes.Gamemode.FinalTally | gamemodes/bingo.py:203-220 | one broadcast news with the final tally; the timer is unchanged |
| Gamemodes.Gamemode.CheckWinner | gamemodes/bingo.py:186-220 | the tally is the board's owners in order of first marked cell; winners and messages are as BingoChecked says for that order |
| Gamemodes.Gamemode.CheckTally | gamemodes/bingo.py:193-220 | the same for a given tally |
| Gamemodes.Gamemode.FindLine | gamemodes/lockout_bingo.py:117-120 | the loop finds the first owner with a line |
| Gamemodes.Gamemode.CheckLockoutWinner | gamemodes/lockout_bingo.py:110-133 | over the tally in order of first claimed cell (the only such order), the first owner with a line wins and stops the game; the final check names the first top owner or "Unentschieden!" |
| Gamemodes.Gamemode.CheckLockTally | gamemodes/lockout_bingo.py:117-133 | the same for a given tally |
| Gamemodes.Gamemode.TickMsgs | gamemodes/bingo.py:77-78 | one timer message per announced second |
| Gamemodes.Gamemode.TickMsg | gamemodes/bingo.py:77-78 | defines one countdown message: `timer(s)` in Bingo, the news `Zeit: MM:SS` in Lockout (gamemodes/lockout_bingo.py:63-64) |
| Gamemodes.Gamemode.TimeUpMsgs | gamemodes/bingo.py:84-86 | defines the time-up messages: `timer(0)` (Bingo only, not gamemodes/lockout_bingo.py:71) then the news "Zeit abgelaufen!" |
| Gamemodes.Gamemode.Tick | gamemodes/bingo.py:74-88 | while active with time left: announce only at whole minutes or the last 10 seconds, then one second less; otherwise the loop ends, and if still active the time-up messages are sent and the winners only grow |
| Gamemodes.Gamemode.TimeUp | gamemodes/bingo.py:84-88 | timer(0) (Bingo only) and "Zeit abgelaufen!", then the final check; the timer ends inactive |
| Gamemodes.Gamemode.Stop | gamemodes/bingo.py:90-94 | a mode with a countdown deactivates the timer and the countdown; the others change nothing |
| Gamemodes.Gamemode.Finish | gamemodes/gamemode.py:21-23 | `finish` behaves as `stop` |
| Gamemodes.Gamemode.PublishedCheck | gamemodes/bingo.py:155-157 | defines what publishing a board change sends and decides: one field per connected player, then Rechecked over the new board |
| Gamemodes.Gamemode.CheckAfterFields | gamemodes/bingo.py:157 | after the fields are sent, the winner check runs over the board's tally as Rechecked says; the board is not touched |
| Gamemodes.Gamemode.Publish | gamemodes/bingo.py:155-157 | the field goes to every player, and the board afterwards is as Republished says, including the re-blanked board when it was never initialized; then the winners are checked over the tally in order of first marked cell (PublishedCheck) |
| Gamemodes.Gamemode.PublishLockout | gamemodes/lockout_bingo.py:106-108 | the same after a Lockout claim, with LockRepublished |
| Gamemodes.Gamemode.ToggleCell | gamemodes/bingo.py:135-153 | the click is accepted exactly when the player holds the cell's word and lockout allows the change, and then only that cell flips |
| Gamemodes.Gamemode.ApplyClick | gamemodes/bingo.py:135-157 | the pool is fetched (a Classic-style pool is created on first access); a refused click changes and sends nothing; an accepted one flips the cell, and the board afterwards is that flipped board as Republished leaves it, followed by PublishedCheck |
| Gamemodes.Gamemode.Prepare | gamemodes/bingo.py:125-126 | the board is left as `_ensure_initialized` leaves it and the timer runs, with a countdown started when it was inactive and time is left |
| Gamemodes.Gamemode.ManualClick | gamemodes/bingo.py:124-157 | the board is prepared as `_ensure_initialized` leaves it (`before`) and the timer started; an index off the board touches no pool and sends nothing; otherwise as ApplyClick on `before`, so an accepted click's board is the flipped `before` as Republished leaves it |
| Gamemodes.Gamemode.HandleBingoClick | gamemodes/bingo.py:121-157 | modes other than manual Bingo ignore clicks and change nothing; a manual Bingo board behaves as ManualClick: prepared board, started timer, pool fetched only for an index on the board, and an accepted click's board and messages stated in full (Republished, PublishedCheck) |
| Gamemodes.Gamemode.MarkCells | gamemodes/bingo.py:166-180 | the loop marks the board as Progressed, and reports whether anything changed |
| Gamemodes.Gamemode.CheckBingoProgress | gamemodes/bingo.py:166-184 | no change sends nothing and changes nothing; a change leaves the marked board as Republished says (re-blanked when it was never initialized), then PublishedCheck |
| Gamemodes.Gamemode.ClaimCells | gamemodes/lockout_bingo.py:97-104 | the loop claims the board as Claimed, and reports whether anything changed |
| Gamemodes.Gamemode.CheckBingoLockout | gamemodes/lockout_bingo.py:97-108 | claims are made in the player's colour; no change sends nothing and changes nothing; a change leaves the claimed board as LockRepublished says, then PublishedCheck |
| Gamemodes.Gamemode.AddAndReport | gamemodes/gamemode.py:75-78 | the item is added to the pool, then `pair_result` (new unless cached) goes to the player, then the item list |
| Gamemodes.Gamemode.MarkWithItem | gamemodes/bingo.py:159-164 | the board afterwards is as ItemMarked says; when MarksChange fails nothing changes and nothing is sent; otherwise the field and the winner check follow (PublishedCheck) |
| Gamemodes.Gamemode.Notified | gamemodes/gamemode.py:75-78 | defines the whole effect of `_add_item_and_notify`: the player's pool gains the item if absent (no other pool changes unless it is shared), `pair_result` and the item lists come first, the board is as ItemMarked says, and a change is followed by PublishedCheck |
| Gamemodes.Gamemode.AddItemAndNotify | gamemodes/gamemode.py:75-78 | every pool only grows, the messages start with `pair_result` and the item lists, and the whole effect is as Notified says, the board included |
| Gamemodes.Gamemode.HandleCombo | gamemodes/gamemode.py:37-43 | no result sends only `pair_empty_result` to the player and changes nothing; a result becomes item(name, emoji) and has the whole effect Notified states, beginning with `pair_result` to the player |
| Gamemodes.Gamemode.StateMsgs | gamemodes/gamemode.py:80-86 | clear, mode and username, then the item list and the field, then an empty news, all to the player |
| Gamemodes.Gamemode.SendState | gamemodes/gamemode.py:80-86 | sends the full state; modes without a field skip the field and leave the board alone |
| Gamemodes.Gamemode.JoinMsgs | gamemodes/shared.py:59-61 | the full state, and in Shared a broadcast "<name> joined the game!" |
| Gamemodes.Gamemode.Join | gamemodes/gamemode.py:29-31 | sends JoinMsgs and prepares the board of a Bingo mode |
| Gamemodes.Gamemode.Rejoin | gamemodes/gamemode.py:25-27 | `rejoin` behaves as `join`: the pool is fetched, a mode without a field keeps its board and timer, a mode with one is prepared and started |
| Game.Outcome | game.py:126-133 | defines the answer to a combination: the cache's hit when there is one, otherwise the interpreted generator reply |
| Game.StartupKind | game.py:38-47 | "shared" in any case starts Shared; anything else, or nothing, starts Classic |
| Game.HitResult | game.py:128-130 | a cache hit is handed over as {name, emoji} |
| Game.GameController.constructor | game.py:32-36 | the directory starts empty |
| Game.GameController.HandleClientJoin | game.py:91-99 | the earlier connection of the uuid is closed, the directory is updated as Joined, the mode's pool, board and timer change as its `join` does, and the mode's join messages follow |
| Game.GameController.Register | game.py:92-98 | the earlier sid of the uuid is reported, and the directory becomes Joined: the player stored under its uuid and the new sid mapped to it |
| Game.GameController.HandleDisconnect | game.py:101-107 | the directory becomes Disconnected (as written) |
| Game.GameController.ChangeUsername | game.py:115-120 | an unknown uuid changes and sends nothing; otherwise the name changes and is sent to that player |
| Game.GameController.AskLlm | game.py:135-257 | an accepted result is written to the cache and saved before the mode handles it; every failure leaves the cache alone and gives the player `pair_empty_result` |
| Game.GameController.RequestCombo | game.py:126-132 | a hit is handed over as cached, without asking the generator and without touching the cache; a miss asks the generator |
| ConvertMega.ComboStep | convert_mega.py:56-76 | defines one merged combination: a non-string result or an unreadable key is skipped, a conflicting stored result is kept, otherwise the result is stored and counted when new |
| ConvertMega.ItemStep | convert_mega.py:88-98 | defines one merged item: a new name is added with its emoji, a stored empty emoji is filled in, anything else is kept |
| ConvertMega.ParseComboKey | convert_mega.py:33-50 | a key that does not evaluate gives ("", ""); a non-empty pair comes only from a literal pair of strings |
| ConvertMega.ParsePairOfStrings | convert_mega.py:33-50 | a literal pair of strings is read back as that pair |
| ConvertMega.MergeCombos | convert_mega.py:53-77 | the loop computes the merged cache and count of MergeCombosUpTo |
| ConvertMega.ComboStepSkips | convert_mega.py:55-72 | a non-string result, a key that does not parse, and a conflict with a different truthy result all leave the entry as it was |
| ConvertMega.ComboStepKeepsTruthy | convert_mega.py:64-72 | a truthy stored result is never replaced |
| ConvertMega.MergeKeepsTruthy | convert_mega.py:53-77 | over the whole merge, every truthy result already stored is kept (first valid wins) |
| ConvertMega.NewKeyCounted | convert_mega.py:74-76 | storing a truthy result under a key that had none adds one new key |
| ConvertMega.ComboStepCounts | convert_mega.py:73-77 | each step keeps the count equal to the number of keys that became truthy |
| ConvertMega.MergeCountIsNewKeys | convert_mega.py:53-77 | when no result is an empty string, the returned count is the number of keys that were absent or empty before and hold a result after |
| ConvertMega.OfferedEmoji | convert_mega.py:88-92 | the offered emoji is a non-empty string from the meta object, or None |
| ConvertMega.MergeItems | convert_mega.py:80-99 | the loop computes the merged item cache and both counters of MergeItemsUpTo |
| ConvertMega.ItemStepKeeps | convert_mega.py:93-98 | each step keeps non-empty emojis, fills only None or "" entries, and counts new names and fills |
| ConvertMega.MergeItemsKeeps | convert_mega.py:84-99 | the same over the whole merge |
| ConvertMega.MergeItemsMeaning | convert_mega.py:80-99 | the new-item count is the number of names added to the cache |
| ConvertMega.ItemStepGrows | convert_mega.py:93-98 | the cache only gains names, and gains this one |
| ConvertMega.MergedNamesPresent | convert_mega.py:84-98 | every name of the meta store is in the cache afterwards |
| ConvertMega.ItemStepFills | convert_mega.py:88-98 | a new name gets its offered emoji or None; an empty emoji is replaced only by an offered one |
| ConvertWords.Store | convert_words.py:50-64 | defines one stored edit: the key gets the result, and a result name not yet an item is added with no emoji; both counters grow only for new entries |
| ConvertWords.StripAll | convert_words.py:40 | every field trimmed, in order |
| ConvertWords.ParseLine | convert_words.py:37-47 | a kept line has three non-empty fields |
| ConvertWords.BlankAndCommentSkipped | convert_words.py:37-39 | blank lines and `#` comments are skipped |
| ConvertWords.KeptLineHasTwoSeparators | convert_words.py:40-43 | a kept line has exactly three fields, so two `=` |
| ConvertWords.ParseLineRoundTrip | convert_words.py:37-47 | writing three trimmed non-empty names without `=` as a=b=r reads them back |
| ConvertWords.EditOf | convert_words.py:37-49 | a kept line writes its result under the key of its two items; a skipped line writes nothing |
| ConvertWords.Edits | convert_words.py:36-49 | one edit per line |
| ConvertWords.ProcessWords | convert_words.py:32-65 | the loop computes both caches and both counters of ProcessUpTo |
| ConvertWords.ProcessLine | convert_words.py:37-64 | the loop body computes one LineStep |
| ConvertWords.StoreMeaning | convert_words.py:50-64 | the key then holds the result (a conflict overrides); other keys are unchanged; the result name is in the item cache; the combo count grows by one exactly when the key held nothing truthy |
| ConvertWords.SkippedLineChangesNothing | convert_words.py:37-47 | a skipped line changes nothing |
| ConvertWords.EditKeepsItems | convert_words.py:62-64 | an edit keeps existing emojis and adds names with None |
| ConvertWords.EditCountsItems | convert_words.py:62-64 | an edit counts the names it adds |
| ConvertWords.ReplayKeepsItems | convert_words.py:36-64 | the same over any edits |
| ConvertWords.ReplayCountsItems | convert_words.py:36-64 | the count over any edits is the growth of the item cache |
| ConvertWords.ProcessKeepsItems | convert_words.py:32-65 | over the file, existing emojis are kept, new names carry None, and the item count is the number of names added |
| ConvertWords.KeyOf | convert_words.py:49 | a kept line has the key of its edit |
| ConvertWords.LineSetsKey | convert_words.py:49-59 | a kept line leaves its key holding its result |
| ConvertWords.LineKeepsOtherKey | convert_words.py:49-59 | a line leaves every other key as it was |
| ConvertWords.ReplayLastWins | convert_words.py:50-59 | over any edits, the last edit of a key decides its result |
| ConvertWords.LastLineWins | convert_words.py:32-65 | the last kept line for a key decides its result |
| Text.StripIsStripped | cache.py:10 | `strip` leaves no surrounding whitespace and keeps trimmed text as it is |
| Text.StripIdempotent | cache.py:10 | stripping twice is stripping once |
| Text.LowerIdempotent | cache.py:10 | lowercasing twice is lowercasing once |
| Text.LexLeTotal | cache.py:12 | string order compares any two strings |
| Text.LexLeAntisymmetric | cache.py:12 | strings ordered both ways are equal |
| Text.SplitLength | convert_words.py:40 | splitting gives one more field than separators |
| Text.SplitFieldsFree | convert_words.py:40 | no field contains the separator |
| Util.DecRoundTrip | gamemodes/lockout_bingo.py:64 | a decimal rendering reads back as the number |
| Util.TwoDigitsRoundTrip | gamemodes/lockout_bingo.py:64 | `02d` gives at least two digits, exactly two below 100, and reads back as the number |
| Util.WithoutDistinct | game.py:106 | deleting a player keeps the listing without repeats |

## Left out

- I/O is left out:
  - The file reads and writes of the cache, the pools and the converters are not modelled. A load receives the decoded file as a value; None stands for a missing or undecodable file.
  - Saves are counted (`saves`, `cacheSaves`), not written.
  - The converters' `_load_mapping`, `_write_mapping`, `main` and their printed messages are not modelled.
- The HTTP exchange of `ask_llm` is a `Reply` input: missing key, network error, or a status with an optional decoded body. The request, the prompt, the environment settings and the log lines are not modelled.
  - The `if not llm_url` branch cannot be taken because the URL has a default, so it is not modelled.
- Foreign functions are parameters:
  - `json.loads` is `parse`;
  - the `\X` grapheme-cluster match is `isCluster`;
  - `ast.literal_eval` is `eval`;
  - the string hash is `h`.
  - Python's Unicode `lower()` is modelled on ASCII letters only.
- Randomness is not modelled as such: `random.sample`/`random.shuffle` is any draw satisfying `ValidDraw` (the right size, every text a source word or "?").
- Concurrency is left out: asyncio tasks, `asyncio.sleep` and cancellation.
  - `Gamemodes.Gamemode.Tick` is one pass of `game_loop`; `loopRunning` stands for the countdown task.
  - Interleavings of a tick with clicks are not modelled.
- Sockets are left out:
  - `send_to_uuid`/`send_to_all`, `disconnect_all` and the socket `disconnect` of an earlier connection are not modelled.
  - `Sent` records what was asked to be sent. Delivery to an unknown player, which `send_to_uuid` drops, is not modelled.
- Some operations are not modelled: `set_gamemode`, `start`, `_send_state_to_all`, `pair`, `handle_client_pair` and `handle_client_username`. They only delegate or do I/O.
  - `GameController` receives its gamemode and cache already built.
  - `Game.StartupKind` models the choice of the starting mode.
- The payloads of `bingo(...)` and `timer(...)` are symbolic messages (`Msg.Bingo`, `Msg.Timer`). Their constructors are not part of templates.py.
- Colours are the opaque type `Colour`:
  - `ColourOf` gives the colour of a listed player, or black.
  - A Bingo cell view lists the owners instead of `done_colors`.
- Game.GameController.AskLlm: states the cache effects and the first message to the player only. The mode's further messages are those `Gamemodes.Gamemode.HandleCombo` states.
- Gamemodes.Gamemode.HandleBingoClick: the click's index is `Option<int>` (None when absent). A JSON index that is present but not an integer, where the comparison at gamemodes/bingo.py:128 raises a TypeError, is not represented.
- Game.GameController.RequestCombo: states whether the generator is asked, the cache effects of a hit, and the first message only.
- Gamemodes.Gamemode.Tick: when time runs out, states the time-up messages, the stopped timer and that winners only grow. The final check itself is stated by `Gamemodes.Gamemode.TimeUp`.
- Gamemodes.Gamemode.MarkWithItem: requires the item to be in the player's pool. The source calls it only right after adding the item.
- ComboStore.Cache.Load: a decoded file is a `Stored` value: two optional sections whose combo values are strings. Some decoded files are not represented:
  - a top level that is not an object, where `data.get` raises an AttributeError that neither `except` catches (cache.py:34);
  - a section present as `null`, which `load` stores and a later `get_combo` then fails on (cache.py:17);
  - combo values that are not strings.
- Game.GameController.HandleClientJoin: the socket `disconnect` of the replaced connection (game.py:95) is left out. The model assumes that connection's `handle_disconnect` runs later, if at all, and not inside that await.

## Findings

| source | as written | input that shows it | evidently intended | confidence | as-written member | corrected member |
|---|---|---|---|---|---|---|
| game.py:101-107 | a disconnect pops the sid and deletes the player it names, without checking that the sid is still the player's current one | join uuid u with sid s1, rejoin u with sid s2, then s1's disconnect is delivered after the rejoin has stored u under s2: u is deleted while connected on s2, and s2 still maps to u | only the player's current sid removes the player; a stale sid only loses its own mapping | not executed | Players.StaleDisconnectDropsReconnected | Players.GuardedDisconnectKeepsReconnected |

`Players.DisconnectedGuarded` is the corrected disconnect. `Game.GameController.HandleDisconnect` keeps the behaviour as written (`Players.Disconnected`), because the controller models game.py as it stands. `Players.GuardedAgreesOnCurrentSid` shows that the two agree whenever the sid is the player's current one, so the correction changes the behaviour only for a stale sid. The input needs the socket layer to deliver s1's disconnect after `handle_client_join` has stored the new connection. If that disconnect runs inside the `await` at game.py:95, before the player is re-stored, the old entry is deleted first and the rejoin is unaffected.
