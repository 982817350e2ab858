# poketwo collection commands, modelled in Dafny

This project models the logic layer of `cogs/pokemon.py`, the collection
commands of the poketwo Discord bot. It covers:

- the parser for IV comparison flags (`parse_numerical_flag`);
- the filter compiler (`create_filter`), which turns command flags into an
  ordered list of aggregation stages, or rejects the whole request;
- the `pokemon` listing command. This means the page check, the sort stages
  appended to the filter, and the page arithmetic handed to the paginator;
- the member record and the commands that change it: `pick`, `redeem`,
  `nickname`, `favorite`, `select`, `order`, `release` and `releaseall`,
  together with the argument classifiers they share.

Files and modules:

- `wrappers.dfy` (module `Wrappers`): an `Option` type.
- `text.dfy` (module `Text`): `str.isdigit`, `int`, `str` and `str.lower`,
  restricted to ASCII.
- `numeric_flag.dfy` (module `NumericFlag`): `parse_numerical_flag`.
- `game.dfy` (module `Game`): the external species catalog and the shape of a
  collection entry.
- `pipeline.dfy` (module `Pipeline`): aggregation stages as data. It also
  gives a small meaning of one stage list for one entry (`Admits`). That
  meaning is used only to state what a compiled filter selects.
- `filter.dfy` (module `Filter`): `create_filter`. `CompileFilter` is the
  function that specifies it. `CreateFilter` is the imperative version: it
  grows the stage list step by step, and its loop runs over the
  `FILTER_BY_NUMERICAL` table.
- `listing.dfy` (module `Listing`): the `pokemon` command.
- `members.dfy` (module `Members`): the class `Member`, whose methods update
  the record in place, plus the classifiers and the collection operations.

How the surroundings are modelled:

- Database updates are modelled by their effect on the record:
  - `$push` appends an entry;
  - `$inc` adds to a field;
  - `$pull` drops the entries whose number is listed;
  - a positional `$set` changes the first entry carrying the given number.
- `fetch_pokemon(-1)` returns the last entry; any other number returns the
  first entry carrying it. The `Database` code is not part of this model, so
  this is an assumption.
- A reply that a command waits for is an input. `None` stands for the
  15-second timeout.
- Inputs taken as parameters:
  - the match counts the database reports;
  - the numbers of the fetched matches;
  - the random nature and IVs;
  - the `GameData` catalog;
  - the `FILTER_BY_NUMERICAL` table;
  - the sort expression of the member's ordering;
  - the starter names.

Behaviour of the source that the model keeps as written:

- Several rarity flags intersect: each one adds its own `$match`.
- `select latest` stores -1 as the selected number.
- `release latest` pulls number -1. No entry carries that number, so the
  collection stays unchanged (`ReleaseLatestPullsNothing`).
- The guards of `release` and `releaseall` compare entry numbers with the
  stored selected number. So once -1 is stored, the latest entry is not
  protected as the selection (`LatestSelectionUnprotected`).
- After `select latest`, `nickname` fetches the latest entry, and then
  updates the entry numbered -1. Under the assumption that this update
  changes the first entry with that number, it changes nothing
  (`NicknameOfLatestSelectionLost`). The `Database` code is not part of this
  model, so this consequence holds only under that assumption.
- `pokemon` answers "no matches" before it builds the paginator. So
  `NumPages` is at least 1 only when there is a match (`ListPokemon`,
  `NumPages`).

## Model

| member | source | states |
|---|---|---|
| Text.IsDigitsExamples | cogs/pokemon.py:118-119 | `isdigit` holds of "007" and "7" but not of "", "1a" or "-1" |
| Text.ValueOf | cogs/pokemon.py:119 | `int` of a digit string: a leading zero does not change the value |
| Text.Decimal | cogs/pokemon.py:542 | `str(n)` of a count: a non-empty digit string whose first digit is 0 only for 0 |
| Text.ValueOfDecimal | cogs/pokemon.py:542 | reading back the decimal rendering of a count gives the count |
| Text.DecimalInjective | cogs/pokemon.py:542 | different counts render differently |
| Text.Lower | cogs/pokemon.py:186 | `str.lower` keeps the length and leaves no upper-case letter, changing only upper-case letters |
| Text.LowerIdempotent | cogs/pokemon.py:323 | lower-casing an already lower-cased text changes nothing |
| NumericFlag.OpOf | cogs/pokemon.py:346 | an operator token is accepted exactly when it is `<`, `=` or `>` |
| NumericFlag.ParseNumericalFlag | cogs/pokemon.py:334-349 | a result always has an all-digit operand; token lists whose length is outside 1..2 are rejected |
| NumericFlag.ParseIffDenotes | cogs/pokemon.py:334-349 | the parser returns (op, digits) exactly when the tokens are `[op, digits]`, `[op+digits]` or `[digits]` (the last only for `=`) with digits non-empty, so every other input is rejected |
| NumericFlag.ParseAcceptedExamples | cogs/pokemon.py:340-347 | `>12` gives (>, 12), `7` gives (=, 7), and `<`,`31` gives (<, 31) |
| NumericFlag.ParseRejectedExamples | cogs/pokemon.py:335-347 | `<`, `abc`, `<>`, `1a` and a three-token list are rejected |
| Pipeline.AdmitsAppend | cogs/pokemon.py:510-515 | an entry passes an extended stage list exactly when it passes the first part and then the appended part, using the fields the first part computed |
| Pipeline.NoMatchAdmitsAll | cogs/pokemon.py:602-607 | stages without `$match` let every entry through |
| Filter.CompileFilter | cogs/pokemon.py:351-425 | an unknown species name rejects the request; a compiled filter starts with the value-free, name and level stages |
| Filter.CreateFilter | cogs/pokemon.py:351-425 | the imperative compiler returns exactly `CompileFilter`, whose layout, rejection and meaning the lemmas below state |
| Filter.AppendBooleanStages | cogs/pokemon.py:352-377 | the value-free flags append their matches in source order: mythical, legendary, ub, type (only when non-empty), favorite |
| Filter.AppendNumericStages | cogs/pokemon.py:393-423 | the loop over the IV table appends each given flag's two stages after the prefix, or rejects the request once one flag does not parse |
| Filter.NumericNoneExtends | cogs/pokemon.py:396-399 | once one IV flag fails to parse, the whole table fails, whatever follows |
| Filter.NumericStagesNoneIff | cogs/pokemon.py:393-399 | the IV stages fail exactly when some given IV flag does not parse |
| Filter.NumericStagesPaired | cogs/pokemon.py:401-423 | the IV stages consist of one `$addFields` immediately followed by its `$match` for each given flag, in table order, with the operator and operand parsed |
| Filter.FixedStagesPlain | cogs/pokemon.py:352-389 | the value-free, name and level part has one plain `$match` per given flag |
| Filter.CompileRejectsIff | cogs/pokemon.py:379-399 | the filter is rejected exactly when the species name is unknown or some IV flag does not parse, even after earlier stages were built |
| Filter.CompiledLayout | cogs/pokemon.py:351-425 | a compiled filter is the plain matches of the given flags followed by an `$addFields`/`$match` pair per given IV flag, in table order |
| Filter.ValueFreeNeverRejected | cogs/pokemon.py:352-389 | without a name or IV flags the filter is never rejected and contains only matches |
| Filter.BooleanMeaning | cogs/pokemon.py:352-377 | an entry passes the value-free stages exactly when it meets every given value-free flag |
| Filter.FixedMeaning | cogs/pokemon.py:352-389 | an entry passes the value-free, name and level stages exactly when it meets every one of those flags that was given |
| Filter.ComparisonStagesMeaning | cogs/pokemon.py:401-423 | an IV flag's two stages let an entry through exactly when its comparison holds of the computed value |
| Filter.NumericMeaning | cogs/pokemon.py:393-423 | an entry passes the IV stages exactly when it meets every given IV flag |
| Filter.PipelineMeaning | cogs/pokemon.py:351-425 | an entry passes a compiled filter exactly when it meets every given flag (rarity flags intersect) |
| Filter.MythicalLevelExample | cogs/pokemon.py:352-389 | `--mythical --level 50` keeps a mythical level-50 entry and drops a mythical level-10 one |
| Listing.SortStages | cogs/pokemon.py:602-607 | two stages that contain no `$match`; `SortKeepsMatches` states that they drop no entry |
| Listing.PageWindow | cogs/pokemon.py:628-631 | page index pidx skips 20·pidx rows and takes at most 20; each page's window starts where the previous one ends |
| Listing.FooterOf | cogs/pokemon.py:649-651 | the range starts at 20·pidx+1 and ends after a full page or at the last match, whichever comes first; the total is num |
| Listing.GetPage | cogs/pokemon.py:626-653 | a page with no rows gives the "no pokémon on this page" answer; otherwise it shows the rows fetched, with the footer `FooterOf(pidx, num)` |
| Listing.ListPokemon | cogs/pokemon.py:588-656 | a page below 1 is refused before any work; a rejected filter stops; zero matches stop; otherwise the pipeline is the filter followed by the sort stages, the page count is ceil(num/20) ≥ 1, and the start index is page−1 |
| Listing.NumPages | cogs/pokemon.py:655 | for num ≥ 1 the page count n satisfies n ≥ 1 and 20(n−1) < num ≤ 20n; it is 0 for no matches |
| Listing.FooterInRange | cogs/pokemon.py:628-651 | every page index below the page count shows a non-empty range within 1..num of at most 20 rows, full on every page but the last |
| Listing.RowOnExactlyOnePage | cogs/pokemon.py:628-651 | row k is fetched by the window of page (k−1)/20 and of no other page, and lies in that page's footer range only |
| Listing.SortKeepsMatches | cogs/pokemon.py:602-607 | the sort stages never drop an entry: the listing admits exactly what the filter admits |
| Members.EntryArg | cogs/pokemon.py:292-301 | an argument is understood exactly when it is all digits or (case-folded for `release`) "latest"; a digit string gives `int(arg)`, and -1 comes exactly from "latest" |
| Members.EntryArgLeadingZeros | cogs/pokemon.py:292-293 | "007" names entry 7 |
| Members.EntryArgDecimal | cogs/pokemon.py:118-119 | the decimal rendering of a number classifies as that number |
| Members.EntryArgCase | cogs/pokemon.py:434-437 | "LATEST" means -1 to `release` but is not understood by `favorite` or `select` |
| Members.FavoriteTarget | cogs/pokemon.py:116-128 | `favorite` without an argument works on the selected number, otherwise on the classified argument |
| Members.OrderKey | cogs/pokemon.py:323-326 | an ordering is accepted exactly when its lower-cased form is number, iv, level or pokedex, and that form is stored |
| Members.OrderKeyStable | cogs/pokemon.py:323-330 | a stored ordering is accepted back unchanged; "IV" gives "iv" |
| Members.NicknameValue | cogs/pokemon.py:87-91 | a nickname over 100 characters is refused, "reset" clears the nickname, and any other text is stored as given |
| Members.ConfirmationPhrase | cogs/pokemon.py:542 | the phrase is "confirm release " followed by a digit string; `ConfirmationBindsCount` states that it determines the count |
| Members.ConfirmationBindsCount | cogs/pokemon.py:542 | the phrase `confirm release {num}` matches the phrase for another count exactly when the counts are equal |
| Members.IndexOfNumbered | cogs/pokemon.py:137-140 | in a numbered collection the positional update on an entry's number finds that entry |
| Members.NoEntryNumberedLatest | cogs/pokemon.py:294-295 | no entry carries -1, the number stored for "latest" |
| Members.Lookup | cogs/pokemon.py:130-133 | `fetch_pokemon`: -1 gives the last entry when there is one; any other number gives an entry with that number exactly when one exists |
| Members.LookupPosition | cogs/pokemon.py:130-140 | the fetched entry is the one the positional update on its number changes |
| Members.PullNumbers | cogs/pokemon.py:557-559 | after the pull, an entry remains exactly when it was there and its number is not listed |
| Members.PullKeepsNumbered | cogs/pokemon.py:481-483 | pulling entries keeps the numbers increasing and below the next number |
| Members.PullAbsent | cogs/pokemon.py:481-483 | pulling numbers no entry carries changes nothing |
| Members.ReleaseLatestPullsNothing | cogs/pokemon.py:436-437 | `release latest` pulls number -1 and so leaves the collection unchanged |
| Members.SetFavorite | cogs/pokemon.py:137-141 | the favorite update keeps every entry's number in place |
| Members.SetNickname | cogs/pokemon.py:97-99 | the nickname update keeps every entry's number in place |
| Members.NicknameOfLatestSelectionLost | cogs/pokemon.py:94-99 | after `select latest`, the nickname update finds no entry and changes nothing |
| Members.ToggleFavorite | cogs/pokemon.py:130-141 | the effect of `favorite` keeps every number in place; `ToggleFavoriteEffect` states which entry changes |
| Members.ToggleFavoriteEffect | cogs/pokemon.py:130-141 | `favorite` flips the flag of exactly the fetched entry and changes nothing else |
| Members.ToggleFavoriteTwice | cogs/pokemon.py:130-141 | running `favorite` twice on the same argument restores the collection |
| Members.ProtectionStages | cogs/pokemon.py:510-515 | two `$match` stages; `ProtectionMeaning` states what they exclude |
| Members.ProtectionMeaning | cogs/pokemon.py:510-515 | an entry passes the `releaseall` pipeline exactly when it passes the filter, is not the selected number and is not a favorite |
| Members.ReleaseAllSparesProtected | cogs/pokemon.py:510-559 | when the pulled numbers come from entries passing that pipeline, the selected entry and every favorite survive, and every fetched entry is gone |
| Members.LatestSelectionUnprotected | cogs/pokemon.py:455-459 | with -1 stored as the selection, the latest entry is fetched but is not protected as selected |
| Members.StarterChoice | cogs/pokemon.py:181-191 | `pick` is refused when a record exists or when the lower-cased name is not a starter; otherwise the species is the one the name resolves to |
| Members.Member.Pick | cogs/pokemon.py:193-208 | the new record holds the starter as entry 1 at level 1, hands out 2 next and selects 1 |
| Members.Member.Redeem | cogs/pokemon.py:27-81 | no species shows the balance; a zero balance, an unknown species or an uncatchable one changes nothing; otherwise the record gains a level-1 entry numbered the old next number, and the next number goes up by one while the balance goes down by one |
| Members.Member.Nickname | cogs/pokemon.py:84-108 | too long is refused; otherwise the selected number's entry gets the nickname, or loses it for "reset" |
| Members.Member.Favorite | cogs/pokemon.py:111-151 | an unknown argument or a missing entry changes nothing; otherwise the fetched entry's flag is flipped |
| Members.Member.Select | cogs/pokemon.py:287-316 | a not-understood argument or missing entry changes nothing; otherwise the classified number (-1 for the latest) is stored |
| Members.Member.Order | cogs/pokemon.py:320-332 | an unknown ordering changes nothing; otherwise the lower-cased ordering is stored |
| Members.Member.Release | cogs/pokemon.py:429-487 | the argument must be understood and the entry must exist and be neither selected nor a favorite, and the reply must be "y" in any case; only then is the argument's number pulled. The selected number's entry and every favorite always survive |
| Members.Member.ReleaseAll | cogs/pokemon.py:500-561 | the pipeline is the compiled filter followed by exactly the two protection stages; zero matches stop; the numbers fetched are pulled only when the reply is exactly the confirmation phrase for the count shown |

## Left out

- Chat output is left out: `ctx.send`, embeds, image and avatar URLs, and the message texts. Each rejection is an outcome value.
- Waiting for a reply (`bot.wait_for`, its 15-second timeout and the check on channel and author) is left out; the reply is an input, and the timeout is `None`.
- The paginator (`helpers/pagination`) is not part of this model. Navigation, index clamping and idle timeout are left out; the model stops at the page count and start index it is given.
- Database execution is left out. Counts, fetched rows and fetched numbers are inputs. `Admits` is a small meaning of stages written for the lemmas; it is not the database's semantics. In particular `Sort` never drops an entry, and a comparison on a missing field fails, while a `$not` condition on a missing field holds.
- The `info`, `start` and `unfavorite` commands only read or print; they are left out.
- `has_started` is not checked explicitly. A `Member` object exists only after `Pick`.
- The sort expressions (`SORTING_FUNCTIONS`) and the numeric expressions are opaque. `SORTING_FUNCTIONS[member.order_by]` is given as its result, so an unknown ordering raising `KeyError` is not modelled.
- An empty single IV token makes the source raise an `IndexError` when its loop reaches that token. The model requires that no given IV flag is such a token (`FlagsParsable`). This also excludes requests the source rejects before it reaches the token, for example an unknown `--name` together with `--iv ""`.
- Python's `str.isdigit` accepts non-ASCII digits and `str.lower` covers all of Unicode. The model handles ASCII only.
- Floating-point output (`iv_percentage * 100:.2f`) is left out, and `math.ceil(num / 20)` is integer ceiling division.
- The record's defaults for `redeems` and `order_by` at `pick` come from `mongo.Member`, which is not part of this model. They are parameters of `Pick`.
- Members.Member.Nickname: when the selected entry cannot be fetched, the source raises on `None.pokemon`. The model answers `NotFound` and changes nothing.
- Members.StarterChoice: `species_by_name` raising for a starter name is modelled as refusing with `UnknownSpecies`.
- Members.SetNickname, Members.SetFavorite: `update_pokemon(member, n, …)` is assumed to change the first entry numbered n, and nothing when no entry carries n.
- Members.Lookup: the database's lookup is assumed to return the first entry with the requested number, or the last entry for -1.
- Concurrent sessions and races between the count and the pull are left out.
