/**
 * A member's record and the commands that change it: `pick`, `redeem`,
 * `nickname`, `favorite`, `select`, `order`, `release` and `releaseall`.
 *
 * The record's collection is a sequence of entries.  Database updates are
 * modelled by their effect on it: `$push` appends, `$pull` drops the entries
 * whose number is listed, and a positional `$set` changes the first entry with
 * the given number.  Replies a command waits for are inputs; `None` stands for
 * the 15-second timeout.
 */
module Members {
  import opened Wrappers
  import opened Text
  import opened Game
  import opened Pipeline
  import opened Filter

  // ---------------------------------------------------------------------
  // Argument classification
  // ---------------------------------------------------------------------

  /**
   * The number argument of `favorite`, `select` and `release`: a digit string
   * is that number, "latest" is -1, anything else is not understood.
   * `release` lower-cases the argument before comparing it with "latest"
   * (`foldCase`); `favorite` and `select` do not.
   */
  function EntryArg(arg: string, foldCase: bool): (r: Option<int>)
    ensures r.Some? <==> IsDigits(arg) || (if foldCase then Lower(arg) else arg) == "latest"
    ensures r.Some? ==> r.value >= -1 && (r.value == -1 <==> !IsDigits(arg))
    ensures IsDigits(arg) ==> r == Some(ValueOf(arg) as int)
  {
    if IsDigits(arg) then Some(ValueOf(arg) as int)
    else if (if foldCase then Lower(arg) else arg) == "latest" then Some(-1)
    else None
  }

  /** The decimal rendering of a number classifies as that number. */
  lemma EntryArgDecimal(n: nat, foldCase: bool)
    ensures EntryArg(Decimal(n), foldCase) == Some(n)
  {
    ValueOfDecimal(n);
  }

  /** A digit string with leading zeros names the same entry as the number it spells: "007" is entry 7. */
  lemma EntryArgLeadingZeros(foldCase: bool)
    ensures EntryArg("007", foldCase) == Some(7)
  {
    assert IsDigits("007") by {
      assert forall i :: 0 <= i < |"007"| ==> IsDigitChar("007"[i]);
    }
    assert "007"[..2] == "00" && "00"[..1] == "0";
    assert ValueOf("007") == 7;
  }

  /** "LATEST" means the latest entry to `release`, but is not understood by `favorite` and `select`. */
  lemma EntryArgCase()
    ensures EntryArg("LATEST", true) == Some(-1)
    ensures EntryArg("LATEST", false) == None
    ensures EntryArg("latest", false) == Some(-1)
  {
    assert !IsDigits("LATEST") by { assert !IsDigitChar("LATEST"[0]); }
    assert !IsDigits("latest") by { assert !IsDigitChar("latest"[0]); }
    assert Lower("LATEST") == "latest";
  }

  /** The number `favorite` works on: its argument as classified, or the selected number when none is given. */
  function FavoriteTarget(arg: Option<string>, selected: int): (r: Option<int>)
    ensures arg.None? ==> r == Some(selected)
    ensures arg.Some? ==> r == EntryArg(arg.value, false)
  {
    if arg.None? then Some(selected) else EntryArg(arg.value, false)
  }

  /** The orderings `order` accepts, all lower-case. */
  const ORDER_KEYS: seq<string> := ["number", "iv", "level", "pokedex"]

  /** `order`'s argument, lower-cased, when it names an ordering. */
  function OrderKey(sort: string): (r: Option<string>)
    ensures r.Some? <==> Lower(sort) in ORDER_KEYS
    ensures r.Some? ==> r.value == Lower(sort)
  {
    var s := Lower(sort);
    if s in ORDER_KEYS then Some(s) else None
  }

  /** An accepted ordering key is accepted again unchanged, and the key is matched case-insensitively. */
  lemma OrderKeyStable(sort: string)
    ensures OrderKey(sort).Some? ==> OrderKey(OrderKey(sort).value) == OrderKey(sort)
    ensures OrderKey("IV") == Some("iv")
  {
    LowerIdempotent(sort);
    assert Lower("IV") == "iv";
  }

  /** Longest nickname `nickname` accepts. */
  const MAX_NICKNAME: nat := 100

  /**
   * The nickname to store: `None` when the text is too long; `Some(None)`
   * (clear the nickname) for "reset"; otherwise the text itself.
   */
  function NicknameValue(nick: string): (r: Option<Option<string>>)
    ensures r.None? <==> |nick| > MAX_NICKNAME
    ensures r == Some(None) <==> nick == "reset"
    ensures r.Some? && r.value.Some? ==> r.value.value == nick && |nick| <= MAX_NICKNAME && nick != "reset"
  {
    if |nick| > MAX_NICKNAME then None
    else if nick == "reset" then Some(None)
    else Some(Some(nick))
  }

  /** The exact reply `releaseall` waits for after announcing `num` matches. */
  function ConfirmationPhrase(num: nat): (r: string)
    ensures |r| > |"confirm release "| && r[..|"confirm release "|] == "confirm release "
    ensures IsDigits(r[|"confirm release "|..])
  {
    "confirm release " + Decimal(num)
  }

  /** A confirmation phrase names exactly one count: one typed for a different count never matches. */
  lemma ConfirmationBindsCount(a: nat, b: nat)
    ensures ConfirmationPhrase(a) == ConfirmationPhrase(b) <==> a == b
  {
    var prefix := "confirm release ";
    if ConfirmationPhrase(a) == ConfirmationPhrase(b) {
      assert ConfirmationPhrase(a)[|prefix|..] == Decimal(a);
      assert ConfirmationPhrase(b)[|prefix|..] == Decimal(b);
      DecimalInjective(a, b);
    }
  }

  // ---------------------------------------------------------------------
  // The collection
  // ---------------------------------------------------------------------

  /** Entry numbers strictly increase along the collection and lie in [1, nextId). */
  predicate Numbered(ps: seq<Entry>, nextId: int) {
    && (forall i :: 0 <= i < |ps| ==> 1 <= ps[i].number < nextId)
    && (forall i, j :: 0 <= i < j < |ps| ==> ps[i].number < ps[j].number)
  }

  /** The position of the first entry numbered n. */
  function IndexOf(ps: seq<Entry>, n: int): (r: Option<nat>)
    ensures r.Some? ==> r.value < |ps| && ps[r.value].number == n
    ensures r.Some? ==> forall j :: 0 <= j < r.value ==> ps[j].number != n
    ensures r.None? ==> forall j :: 0 <= j < |ps| ==> ps[j].number != n
    decreases |ps|
  {
    if ps == [] then None
    else if ps[0].number == n then Some(0)
    else match IndexOf(ps[1..], n)
      case None => None
      case Some(i) => Some(i + 1)
  }

  /** In a numbered collection each entry is the one found under its own number. */
  lemma IndexOfNumbered(ps: seq<Entry>, nextId: int, i: nat)
    requires Numbered(ps, nextId) && i < |ps|
    ensures IndexOf(ps, ps[i].number) == Some(i)
  {
  }

  /** No entry of a numbered collection carries -1, the number stored for "latest". */
  lemma NoEntryNumberedLatest(ps: seq<Entry>, nextId: int)
    requires Numbered(ps, nextId)
    ensures IndexOf(ps, -1).None?
  {
  }

  /**
   * `fetch_pokemon`: -1 asks for the latest (last) entry, any other number
   * for the first entry carrying it.
   */
  function Lookup(ps: seq<Entry>, n: int): (r: Option<Entry>)
    ensures n == -1 ==> (r.Some? <==> |ps| > 0) && (r.Some? ==> r.value == ps[|ps| - 1])
    ensures n != -1 ==> (r.Some? <==> exists i :: 0 <= i < |ps| && ps[i].number == n)
    ensures n != -1 && r.Some? ==> r.value in ps && r.value.number == n
  {
    if n == -1 then (if |ps| == 0 then None else Some(ps[|ps| - 1]))
    else match IndexOf(ps, n)
      case None => None
      case Some(i) => Some(ps[i])
  }

  /** What `fetch_pokemon` returns is the entry a positional update on its number changes. */
  lemma LookupPosition(ps: seq<Entry>, nextId: int, n: int) returns (i: nat)
    requires Numbered(ps, nextId) && Lookup(ps, n).Some?
    ensures i < |ps| && ps[i] == Lookup(ps, n).value && IndexOf(ps, ps[i].number) == Some(i)
  {
    if n == -1 {
      i := |ps| - 1;
    } else {
      i := IndexOf(ps, n).value;
    }
    IndexOfNumbered(ps, nextId, i);
  }

  /** `$pull {"number": {"$in": ns}}`: the collection without the entries whose number is listed, in order. */
  function PullNumbers(ps: seq<Entry>, ns: set<int>): (r: seq<Entry>)
    ensures forall e :: e in r <==> e in ps && e.number !in ns
    ensures |r| <= |ps|
    decreases |ps|
  {
    if ps == [] then []
    else if ps[0].number in ns then PullNumbers(ps[1..], ns)
    else [ps[0]] + PullNumbers(ps[1..], ns)
  }

  /** Pulling entries keeps the numbering invariant. */
  lemma {:induction false} PullKeepsNumbered(ps: seq<Entry>, ns: set<int>, nextId: int)
    requires Numbered(ps, nextId)
    ensures Numbered(PullNumbers(ps, ns), nextId)
    decreases |ps|
  {
    if ps != [] {
      assert Numbered(ps[1..], nextId);
      PullKeepsNumbered(ps[1..], ns, nextId);
      if ps[0].number !in ns {
        assert Above(ps[1..], ps[0].number);
        PullKeepsAbove(ps[1..], ns, ps[0].number);
        ConsNumbered(ps[0], PullNumbers(ps[1..], ns), nextId);
      }
    }
  }

  /** Every entry of `ps` is numbered above `lo`. */
  predicate Above(ps: seq<Entry>, lo: int) {
    forall i :: 0 <= i < |ps| ==> lo < ps[i].number
  }

  lemma {:induction false} PullKeepsAbove(ps: seq<Entry>, ns: set<int>, lo: int)
    requires Above(ps, lo)
    ensures Above(PullNumbers(ps, ns), lo)
    decreases |ps|
  {
    if ps != [] {
      PullKeepsAbove(ps[1..], ns, lo);
    }
  }

  lemma ConsNumbered(x: Entry, rest: seq<Entry>, nextId: int)
    requires 1 <= x.number < nextId && Above(rest, x.number) && Numbered(rest, nextId)
    ensures Numbered([x] + rest, nextId)
  {
    var r := [x] + rest;
    assert forall i :: 1 <= i < |r| ==> r[i] == rest[i - 1];
  }

  /** Pulling numbers no entry carries changes nothing. */
  lemma {:induction false} PullAbsent(ps: seq<Entry>, ns: set<int>)
    requires forall i :: 0 <= i < |ps| ==> ps[i].number !in ns
    ensures PullNumbers(ps, ns) == ps
    decreases |ps|
  {
    if ps != [] {
      PullAbsent(ps[1..], ns);
      assert [ps[0]] + ps[1..] == ps;
    }
  }

  /** `release latest` pulls number -1, which no entry carries: the collection stays as it was. */
  lemma ReleaseLatestPullsNothing(ps: seq<Entry>, nextId: int)
    requires Numbered(ps, nextId)
    ensures PullNumbers(ps, {-1}) == ps
  {
    PullAbsent(ps, {-1});
  }

  /** Two collections with the same numbers at the same positions. */
  predicate SameNumbers(ps: seq<Entry>, qs: seq<Entry>) {
    |ps| == |qs| && forall i :: 0 <= i < |ps| ==> ps[i].number == qs[i].number
  }

  lemma SameNumbersIndexOf(ps: seq<Entry>, qs: seq<Entry>, n: int)
    requires SameNumbers(ps, qs)
    ensures IndexOf(ps, n) == IndexOf(qs, n)
  {
    var a, b := IndexOf(ps, n), IndexOf(qs, n);
    if a.Some? && b.Some? {
      assert !(a.value < b.value) && !(b.value < a.value);
    }
  }

  /** The positional `$set` of `pokemon.$.favorite` on the first entry numbered n. */
  function SetFavorite(ps: seq<Entry>, n: int, b: bool): (r: seq<Entry>)
    ensures SameNumbers(ps, r)
  {
    match IndexOf(ps, n)
    case None => ps
    case Some(i) => ps[i := ps[i].(favorite := b)]
  }

  /** The positional `$set` of `pokemon.$.nickname` on the first entry numbered n. */
  function SetNickname(ps: seq<Entry>, n: int, nick: Option<string>): (r: seq<Entry>)
    ensures SameNumbers(ps, r)
  {
    match IndexOf(ps, n)
    case None => ps
    case Some(i) => ps[i := ps[i].(nickname := nick)]
  }

  /** Updates that keep every number in place keep the numbering invariant. */
  lemma SameNumbersNumbered(ps: seq<Entry>, qs: seq<Entry>, nextId: int)
    requires Numbered(ps, nextId) && SameNumbers(ps, qs)
    ensures Numbered(qs, nextId)
  {
  }

  /** `nickname` after `select latest` stores -1 as the target: the positional update finds nothing. */
  lemma NicknameOfLatestSelectionLost(ps: seq<Entry>, nextId: int, nick: Option<string>)
    requires Numbered(ps, nextId)
    ensures SetNickname(ps, -1, nick) == ps
  {
    NoEntryNumberedLatest(ps, nextId);
  }

  /** The effect of `favorite` on argument n: the fetched entry's flag is flipped. */
  function ToggleFavorite(ps: seq<Entry>, n: int): (r: seq<Entry>)
    requires Lookup(ps, n).Some?
    ensures SameNumbers(ps, r)
  {
    var p := Lookup(ps, n).value;
    SetFavorite(ps, p.number, !p.favorite)
  }

  /**
   * In a numbered collection `favorite` flips the flag of exactly the entry
   * fetched and changes nothing else.
   */
  lemma ToggleFavoriteEffect(ps: seq<Entry>, nextId: int, n: int) returns (i: nat)
    requires Numbered(ps, nextId) && Lookup(ps, n).Some?
    ensures i < |ps| && ps[i] == Lookup(ps, n).value
    ensures ToggleFavorite(ps, n) == ps[i := ps[i].(favorite := !ps[i].favorite)]
  {
    i := LookupPosition(ps, nextId, n);
  }

  /** Running `favorite` twice on the same argument restores the collection. */
  lemma ToggleFavoriteTwice(ps: seq<Entry>, nextId: int, n: int)
    requires Numbered(ps, nextId) && Lookup(ps, n).Some?
    ensures Numbered(ToggleFavorite(ps, n), nextId)
    ensures Lookup(ToggleFavorite(ps, n), n).Some?
    ensures ToggleFavorite(ToggleFavorite(ps, n), n) == ps
  {
    var i := ToggleFavoriteEffect(ps, nextId, n);
    var qs := ToggleFavorite(ps, n);
    SameNumbersNumbered(ps, qs, nextId);
    assert Lookup(qs, n) == Some(qs[i]) by {
      if n != -1 {
        SameNumbersIndexOf(ps, qs, n);
      }
    }
    var j := ToggleFavoriteEffect(qs, nextId, n);
    assert j == i;
    assert qs[i := qs[i].(favorite := !qs[i].favorite)] == ps;
  }

  // ---------------------------------------------------------------------
  // `releaseall`
  // ---------------------------------------------------------------------

  /** The numbers of a fetched list, as the `$in` operand of the pull. */
  function NumberSet(ns: seq<int>): (r: set<int>)
    ensures forall x :: x in r <==> x in ns
  {
    set x | x in ns
  }

  /** The two stages `releaseall` appends: skip the selected number and every favorite. */
  function ProtectionStages(selected: int): (r: seq<Stage>)
    ensures |r| == 2 && forall i :: 0 <= i < |r| ==> r[i].Match?
  {
    [Match(Number, NotInt(selected)), Match(Favorite, NotBool(true))]
  }

  /** An entry passes the `releaseall` pipeline exactly when it passes the filter, is not the selected number and is not a favorite. */
  lemma ProtectionMeaning(filter: seq<Stage>, selected: int, e: Entry, eval: Evaluator, env: Env)
    ensures Admits(filter + ProtectionStages(selected), e, eval, env)
        <==> Admits(filter, e, eval, env) && e.number != selected && !e.favorite
  {
    AdmitsAppend(filter, ProtectionStages(selected), e, eval, env);
    var st := ProtectionStages(selected);
    var env' := EnvAfter(filter, e, eval, env);
    assert st[1..] == [st[1]];
    assert st[1..][1..] == [];
    assert Admits(st, e, eval, env') == (Holds(e, env', Number, NotInt(selected)) && Admits(st[1..], e, eval, env'));
    assert Admits(st[1..], e, eval, env') == Holds(e, env', Favorite, NotBool(true));
  }

  /**
   * When every number pulled was fetched from an entry that passes the
   * `releaseall` pipeline, the entry carrying the selected number and every
   * favorite survive, and each fetched entry is gone.
   */
  lemma ReleaseAllSparesProtected(ps: seq<Entry>, nextId: int, filter: seq<Stage>, selected: int,
                                  fetched: seq<int>, eval: Evaluator)
    requires Numbered(ps, nextId)
    requires forall k :: 0 <= k < |fetched| ==>
      exists i :: 0 <= i < |ps| && ps[i].number == fetched[k]
        && Admits(filter + ProtectionStages(selected), ps[i], eval, map[])
    ensures forall e :: e in ps && (e.number == selected || e.favorite) ==> e in PullNumbers(ps, NumberSet(fetched))
    ensures forall e :: e in ps && e.number in fetched ==> e !in PullNumbers(ps, NumberSet(fetched))
  {
    forall e | e in ps && (e.number == selected || e.favorite)
      ensures e.number !in fetched
    {
      if e.number in fetched {
        var k :| 0 <= k < |fetched| && fetched[k] == e.number;
        var i :| 0 <= i < |ps| && ps[i].number == fetched[k]
          && Admits(filter + ProtectionStages(selected), ps[i], eval, map[]);
        ProtectionMeaning(filter, selected, ps[i], eval, map[]);
        assert false;
      }
    }
  }

  /** `release` refuses an entry held this way. */
  predicate Protected(e: Entry, selected: int) {
    e.number == selected || e.favorite
  }

  /**
   * The `release` and `releaseall` guards compare against the stored selected
   * number: once `select latest` has stored -1, the latest entry itself is not
   * protected by being selected.
   */
  lemma LatestSelectionUnprotected(ps: seq<Entry>, nextId: int)
    requires Numbered(ps, nextId) && |ps| > 0 && !ps[|ps| - 1].favorite
    ensures Lookup(ps, -1) == Some(ps[|ps| - 1])
    ensures !Protected(ps[|ps| - 1], -1)
  {
  }

  // ---------------------------------------------------------------------
  // The member record
  // ---------------------------------------------------------------------

  /** How a command ends. */
  datatype Outcome =
    | Done              // the record was changed as asked
    | ShowRedeems       // `redeem` without an argument only shows the balance
    | NoRedeems
    | UnknownSpecies
    | NotCatchable
    | Usage             // the argument was not understood
    | NotFound          // no entry under that number
    | IsSelected
    | IsFavorite
    | TimedOut
    | Aborted           // the reply was not the confirmation asked for
    | TooLong
    | AlreadyStarted
    | NotStarter
    | FilterRejected
    | NoMatches

  /** `pick`'s checks before the member record is created: the species of the chosen starter, or why there is none. */
  function StarterChoice(started: bool, name: string, starters: set<string>, data: GameData): (r: StarterResult)
    ensures r.Chosen? <==> !started && Lower(name) in starters && data.speciesByName(name).Some?
    ensures r.Chosen? ==> r.speciesId == data.speciesByName(name).value.id
    ensures r == Refused(AlreadyStarted) <==> started
    ensures r == Refused(NotStarter) <==> !started && Lower(name) !in starters
  {
    if started then Refused(AlreadyStarted)
    else if Lower(name) !in starters then Refused(NotStarter)
    else match data.speciesByName(name)
      case None => Refused(UnknownSpecies)
      case Some(sp) => Chosen(sp.id)
  }

  datatype StarterResult = Refused(why: Outcome) | Chosen(speciesId: int)

  /** A member's record: the collection, the next number to hand out, the selection, the redeem balance and the ordering. */
  class Member {
    var pokemon: seq<Entry>
    var nextId: int
    var selected: int
    var redeems: int
    var orderBy: string

    ghost predicate Valid()
      reads this
    {
      nextId >= 1 && redeems >= 0 && Numbered(pokemon, nextId)
    }

    /**
     * `pick`: the new record holds the starter as entry 1, hands out 2 next
     * and selects entry 1.  The starting balance and ordering are the record's
     * defaults, given here.
     */
    constructor Pick(speciesId: int, nature: string, ivs: Ivs, initialRedeems: nat, initialOrder: string)
      ensures Valid()
      ensures pokemon == [Entry(1, speciesId, 1, 0, nature, ivs, false, None)]
      ensures nextId == 2 && selected == 1
      ensures redeems == initialRedeems && orderBy == initialOrder
    {
      pokemon := [Entry(1, speciesId, 1, 0, nature, ivs, false, None)];
      nextId := 2;
      selected := 1;
      redeems := initialRedeems;
      orderBy := initialOrder;
    }

    /**
     * `redeem`: with a species given and a positive balance, a catchable
     * species is added as a new level-1 entry under the next number, and the
     * balance goes down by one.  `nature` and `ivs` are the random draws.
     */
    method Redeem(species: Option<string>, data: GameData, nature: string, ivs: Ivs) returns (outcome: Outcome)
      requires Valid()
      modifies this`pokemon, this`nextId, this`redeems
      ensures Valid()
      ensures species.None? ==> outcome == ShowRedeems
      ensures species.Some? && old(redeems) == 0 ==> outcome == NoRedeems
      ensures species.Some? && old(redeems) != 0 && data.speciesByName(species.value).None? ==> outcome == UnknownSpecies
      ensures species.Some? && old(redeems) != 0 && data.speciesByName(species.value).Some?
              && !data.speciesByName(species.value).value.catchable
              ==> outcome == NotCatchable
      ensures outcome == Done <==>
        && species.Some? && old(redeems) != 0 && data.speciesByName(species.value).Some?
        && data.speciesByName(species.value).value.catchable
      ensures outcome == Done ==>
        && pokemon == old(pokemon) + [Entry(old(nextId), data.speciesByName(species.value).value.id, 1, 0, nature, ivs, false, None)]
        && nextId == old(nextId) + 1
        && redeems == old(redeems) - 1
      ensures outcome != Done ==> pokemon == old(pokemon) && nextId == old(nextId) && redeems == old(redeems)
    {
      if species.None? {
        return ShowRedeems;
      }
      if redeems == 0 {
        return NoRedeems;
      }
      var found := data.speciesByName(species.value);
      if found.None? {
        return UnknownSpecies;
      }
      if !found.value.catchable {
        return NotCatchable;
      }
      pokemon := pokemon + [Entry(nextId, found.value.id, 1, 0, nature, ivs, false, None)];
      nextId := nextId + 1;
      redeems := redeems - 1;
      outcome := Done;
    }

    /**
     * `nickname`: an over-long nickname is refused; otherwise the selected
     * number's entry gets the nickname, or loses it for "reset".
     */
    method Nickname(nick: string) returns (outcome: Outcome)
      requires Valid()
      modifies this`pokemon
      ensures Valid()
      ensures |nick| > MAX_NICKNAME ==> outcome == TooLong
      ensures |nick| <= MAX_NICKNAME && Lookup(old(pokemon), selected).None? ==> outcome == NotFound
      ensures outcome == Done <==> |nick| <= MAX_NICKNAME && Lookup(old(pokemon), selected).Some?
      ensures outcome == Done ==>
        pokemon == SetNickname(old(pokemon), selected, if nick == "reset" then None else Some(nick))
      ensures outcome != Done ==> pokemon == old(pokemon)
    {
      var value := NicknameValue(nick);
      if value.None? {
        return TooLong;
      }
      var found := Lookup(pokemon, selected);
      if found.None? {
        return NotFound;
      }
      SameNumbersNumbered(pokemon, SetNickname(pokemon, selected, value.value), nextId);
      pokemon := SetNickname(pokemon, selected, value.value);
      outcome := Done;
    }

    /** `favorite`: flips the favorite flag of the entry named by the argument (the selected one by default). */
    method Favorite(arg: Option<string>) returns (outcome: Outcome)
      requires Valid()
      modifies this`pokemon
      ensures Valid()
      ensures FavoriteTarget(arg, selected).None? ==> outcome == Usage
      ensures FavoriteTarget(arg, selected).Some? && Lookup(old(pokemon), FavoriteTarget(arg, selected).value).None?
              ==> outcome == NotFound
      ensures outcome == Done <==>
        FavoriteTarget(arg, selected).Some? && Lookup(old(pokemon), FavoriteTarget(arg, selected).value).Some?
      ensures outcome == Done ==> pokemon == ToggleFavorite(old(pokemon), FavoriteTarget(arg, selected).value)
      ensures outcome != Done ==> pokemon == old(pokemon)
    {
      var target := FavoriteTarget(arg, selected);
      if target.None? {
        return Usage;
      }
      var found := Lookup(pokemon, target.value);
      if found.None? {
        return NotFound;
      }
      var p := found.value;
      SameNumbersNumbered(pokemon, SetFavorite(pokemon, p.number, !p.favorite), nextId);
      pokemon := SetFavorite(pokemon, p.number, !p.favorite);
      outcome := Done;
    }

    /** `select`: stores the classified argument (-1 for "latest") when it names an entry. */
    method Select(arg: string) returns (outcome: Outcome)
      requires Valid()
      modifies this`selected
      ensures Valid()
      ensures EntryArg(arg, false).None? ==> outcome == Usage
      ensures outcome == Done <==> EntryArg(arg, false).Some? && Lookup(pokemon, EntryArg(arg, false).value).Some?
      ensures outcome == Done ==> selected == EntryArg(arg, false).value
      ensures outcome != Done ==> selected == old(selected)
    {
      var n := EntryArg(arg, false);
      if n.None? {
        return Usage;
      }
      if Lookup(pokemon, n.value).None? {
        return NotFound;
      }
      selected := n.value;
      outcome := Done;
    }

    /** `order`: stores the lower-cased ordering when it is one of the four known. */
    method Order(sort: string) returns (outcome: Outcome)
      requires Valid()
      modifies this`orderBy
      ensures Valid()
      ensures outcome == Done <==> Lower(sort) in ORDER_KEYS
      ensures outcome == Done ==> orderBy == Lower(sort) && orderBy in ORDER_KEYS
      ensures outcome != Done ==> outcome == Usage && orderBy == old(orderBy)
    {
      var key := OrderKey(sort);
      if key.None? {
        return Usage;
      }
      orderBy := key.value;
      outcome := Done;
    }

    /**
     * `release`: refuses the selected and favorited entries, asks for a "y"
     * (any case), then pulls the number given — -1 for "latest", which
     * matches no entry.
     */
    method Release(arg: string, reply: Option<string>) returns (outcome: Outcome)
      requires Valid()
      modifies this`pokemon
      ensures Valid()
      ensures EntryArg(arg, true).None? ==> outcome == Usage
      ensures EntryArg(arg, true).Some? && Lookup(old(pokemon), EntryArg(arg, true).value).None? ==> outcome == NotFound
      ensures outcome == Done <==>
        && EntryArg(arg, true).Some?
        && Lookup(old(pokemon), EntryArg(arg, true).value).Some?
        && !Protected(Lookup(old(pokemon), EntryArg(arg, true).value).value, selected)
        && reply.Some? && Lower(reply.value) == "y"
      ensures outcome == Done ==> pokemon == PullNumbers(old(pokemon), {EntryArg(arg, true).value})
      ensures outcome != Done ==> pokemon == old(pokemon)
      ensures forall e :: e in old(pokemon) && Protected(e, selected) ==> e in pokemon
    {
      var n := EntryArg(arg, true);
      if n.None? {
        return Usage;
      }
      var found := Lookup(pokemon, n.value);
      if found.None? {
        return NotFound;
      }
      var p := found.value;
      if selected == p.number {
        return IsSelected;
      }
      if p.favorite {
        return IsFavorite;
      }
      if reply.None? {
        return TimedOut;
      }
      if Lower(reply.value) != "y" {
        return Aborted;
      }
      ghost var i := LookupPosition(pokemon, nextId, n.value);
      forall e | e in pokemon && Protected(e, selected)
        ensures e.number != n.value
      {
        if n.value != -1 {
          assert e != p;
          var j :| 0 <= j < |pokemon| && pokemon[j] == e;
          assert j != i;
        }
      }
      PullKeepsNumbered(pokemon, {n.value}, nextId);
      pokemon := PullNumbers(pokemon, {n.value});
      outcome := Done;
    }

    /**
     * `releaseall`: compiles the filter, appends the protection stages, and
     * once the reply is exactly the confirmation phrase for `count` (the
     * number of matches reported for that pipeline) pulls every number in
     * `fetched` (the numbers of the matches fetched with it).
     */
    method ReleaseAll(flags: Flags, data: GameData, table: seq<NumericalFlag>, count: nat,
                      reply: Option<string>, fetched: seq<int>) returns (outcome: Outcome, pipeline: Option<seq<Stage>>)
      requires Valid() && FlagsParsable(flags)
      modifies this`pokemon
      ensures Valid()
      ensures pipeline.None? <==> CompileFilter(flags, data, table).None?
      ensures pipeline.Some? ==> pipeline.value == CompileFilter(flags, data, table).value + ProtectionStages(selected)
      ensures pipeline.None? ==> outcome == FilterRejected
      ensures pipeline.Some? && count == 0 ==> outcome == NoMatches
      ensures outcome == Done <==> pipeline.Some? && count > 0 && reply == Some(ConfirmationPhrase(count))
      ensures outcome == Done ==> pokemon == PullNumbers(old(pokemon), NumberSet(fetched))
      ensures outcome != Done ==> pokemon == old(pokemon)
    {
      var filter := CreateFilter(flags, data, table);
      if filter.None? {
        return FilterRejected, None;
      }
      var aggregations := filter.value;
      aggregations := aggregations + ProtectionStages(selected);
      pipeline := Some(aggregations);
      if count == 0 {
        return NoMatches, pipeline;
      }
      if reply.None? {
        return TimedOut, pipeline;
      }
      if reply.value != ConfirmationPhrase(count) {
        return Aborted, pipeline;
      }
      PullKeepsNumbered(pokemon, NumberSet(fetched), nextId);
      pokemon := PullNumbers(pokemon, NumberSet(fetched));
      outcome := Done;
    }
  }
}
