/**
 * MemoryService: an in-memory, per-user conversation log. Each user id maps
 * to the list of that user's saved interactions, oldest first; saving appends
 * one entry stamped with an `id`, and the two queries read a window of the
 * list or the entries that mention a search text.
 */
module MemoryService {
  import opened Wrappers
  import opened Json
  import JsArray
  import JsMap
  import JsString

  /** A saved interaction: a plain object with an `id` property and the caller's properties. */
  type Entry = seq<Field>

  /** How many entries `getConversationHistory` returns when no limit is passed. */
  const DefaultHistoryLimit: int := 50

  /** How many matches `searchMemory` returns when no limit is passed. */
  const DefaultSearchLimit: int := 10

  /** Copying properties never moves the ones the target already has. */
  lemma {:induction false} SpreadKeepsLeading(target: seq<Field>, source: seq<Field>)
    ensures |Spread(target, source)| >= |target|
    ensures forall i :: 0 <= i < |target| ==> Spread(target, source)[i].key == target[i].key
    decreases |source|
  {
    if source != [] {
      var t := Put(target, source[0].key, source[0].value);
      PutSemantics(target, source[0].key, source[0].value);
      SpreadKeepsLeading(t, source[1..]);
    }
  }

  /**
   * The stored object `{id: now, ...interaction}`: `id` comes first, and the
   * interaction's own properties follow.
   */
  function StampEntry(now: int, interaction: seq<Field>): (e: Entry)
    ensures |e| >= 1 && e[0].key == "id"
  {
    SpreadKeepsLeading([Field("id", JNum(now))], interaction);
    Spread([Field("id", JNum(now))], interaction)
  }

  /**
   * The shape of a stamped entry: its `id` is the clock value unless the
   * interaction carries its own `id`, which wins because the spread comes
   * after it; the other properties follow in the interaction's order.
   */
  lemma StampedEntryShape(now: int, interaction: seq<Field>)
    requires WellFormedObject(interaction)
    ensures StampEntry(now, interaction) ==
            if HasKey(interaction, "id")
            then [Field("id", Lookup(interaction, "id").value)] + RemoveKey(interaction, "id")
            else [Field("id", JNum(now))] + interaction
    ensures Lookup(StampEntry(now, interaction), "id") ==
            if HasKey(interaction, "id") then Lookup(interaction, "id") else Some(JNum(now))
  {
    SpreadAfterLeading("id", JNum(now), interaction);
  }

  /** `JSON.stringify(item).toLowerCase().includes(query.toLowerCase())`. */
  function Matches(query: string, item: Entry): (b: bool)
    ensures b <==> exists i :: JsString.OccursAt(JsString.ToLowerCase(Stringify(JObj(item)).value), JsString.ToLowerCase(query), i)
  {
    var text := JsString.ToLowerCase(Stringify(JObj(item)).value);
    var needle := JsString.ToLowerCase(query);
    assert text == JsString.ToLowerCase(Stringify(JObj(item)).value);
    JsString.Includes(text, needle)
  }

  /** Lower-casing is idempotent, so a query matches exactly when its lower-cased form does. */
  lemma MatchesIgnoresQueryCase(query: string, item: Entry)
    ensures Matches(query, item) == Matches(JsString.ToLowerCase(query), item)
  {
    var q := JsString.ToLowerCase(query);
    assert JsString.ToLowerCase(q) == q;
  }

  /** The entries of `history` that mention `query`, in their original order. */
  function MatchingEntries(history: seq<Entry>, query: string): (r: seq<Entry>)
    ensures |r| <= |history|
    ensures forall e :: e in r <==> e in history && Matches(query, e)
  {
    JsArray.Filter(history, (e: Entry) => Matches(query, e))
  }

  /** Appending an entry to a history extends its matches by that entry exactly when the entry matches. */
  lemma MatchingEntriesAppend(history: seq<Entry>, e: Entry, query: string)
    ensures MatchingEntries(history + [e], query) ==
            MatchingEntries(history, query) + (if Matches(query, e) then [e] else [])
  {
    JsArray.FilterConcat(history, [e], (x: Entry) => Matches(query, x));
    assert JsArray.Filter([e], (x: Entry) => Matches(query, x)) == if Matches(query, e) then [e] else [] by {
      assert [e][1..] == [];
    }
  }

  /** The empty query is part of every serialisation, so every entry matches it. */
  lemma EmptyQueryMatchesAll(history: seq<Entry>)
    ensures MatchingEntries(history, "") == history
  {
    forall e | e in history ensures Matches("", e) {
      var text := Stringify(JObj(e));
      JsString.IncludesEmpty(JsString.ToLowerCase(text.value));
      assert JsString.ToLowerCase("") == "";
    }
    JsArray.FilterAll(history, (x: Entry) => Matches("", x));
  }

  class MemoryService {
    /** `this.conversations`: user id to that user's entries, oldest first. */
    var conversations: JsMap.OrderedMap<string, seq<Entry>>

    ghost predicate Valid()
      reads this
    {
      conversations.Valid()
    }

    constructor()
      ensures Valid()
      ensures conversations == JsMap.Empty()
    {
      conversations := JsMap.Empty();
    }

    /** `this.conversations.get(userId) || []`. */
    function History(userId: string): (h: seq<Entry>)
      reads this
      ensures conversations.Has(userId) ==> h == conversations.Get(userId)
      ensures !conversations.Has(userId) ==> h == []
    {
      if conversations.Has(userId) then conversations.Get(userId) else []
    }

    /**
     * `saveInteraction(userId, interaction)` with `Date.now()` passed in as
     * `now`: create the user's list when missing, then push the stamped entry.
     */
    method SaveInteraction(userId: string, interaction: seq<Field>, now: int)
      requires Valid()
      modifies this
      ensures Valid()
      ensures History(userId) == old(History(userId)) + [StampEntry(now, interaction)]
      ensures forall u :: u != userId ==> History(u) == old(History(u))
      ensures conversations.keys ==
              if old(conversations.Has(userId)) then old(conversations.keys)
              else old(conversations.keys) + [userId]
    {
      if !conversations.Has(userId) {
        conversations := conversations.Set(userId, []);
      }
      var list := conversations.Get(userId);
      conversations := conversations.Set(userId, list + [StampEntry(now, interaction)]);
    }

    /**
     * `getConversationHistory(userId, limit)`, that is `history.slice(-limit)`:
     * a positive limit gives the last `limit` entries (all of them when there
     * are fewer); a zero limit gives everything, because `-0` is `0`; a
     * negative limit `-k` drops the first `k` entries.
     */
    function GetConversationHistory(userId: string, limit: int := DefaultHistoryLimit): (r: seq<Entry>)
      reads this
      ensures !conversations.Has(userId) ==> r == []
      ensures 1 <= limit ==>
                |r| == JsArray.Min(limit, |History(userId)|) &&
                r == History(userId)[|History(userId)| - |r|..]
      ensures limit == 0 ==> r == History(userId)
      ensures limit < 0 ==> r == History(userId)[JsArray.Min(-limit, |History(userId)|)..]
    {
      JsArray.SliceFrom(History(userId), -limit)
    }

    /**
     * `searchMemory(userId, query, limit)`: the entries whose lower-cased JSON
     * mentions the lower-cased query, in their original order, cut by
     * `slice(0, limit)`: the first `limit` matches for a non-negative limit,
     * all but the last `-limit` matches for a negative one.
     */
    function SearchMemory(userId: string, query: string, limit: int := DefaultSearchLimit): (r: seq<Entry>)
      reads this
      ensures JsArray.IsSubsequence(r, History(userId))
      ensures forall e :: e in r ==> Matches(query, e)
      ensures 0 <= limit ==>
                |r| <= limit &&
                r == MatchingEntries(History(userId), query)[..JsArray.Min(limit, |MatchingEntries(History(userId), query)|)]
      ensures limit < 0 ==>
                r == MatchingEntries(History(userId), query)[..JsArray.Max(|MatchingEntries(History(userId), query)| + limit, 0)]
    {
      SearchWindow(History(userId), query, limit);
      JsArray.Slice(MatchingEntries(History(userId), query), 0, limit)
    }
  }

  /** The search window over the matches of `history` is an in-order selection of matching entries. */
  lemma SearchWindow(history: seq<Entry>, query: string, limit: int)
    ensures var r := JsArray.Slice(MatchingEntries(history, query), 0, limit);
            JsArray.IsSubsequence(r, history) && (forall e :: e in r ==> Matches(query, e))
  {
    var matches := MatchingEntries(history, query);
    var r := JsArray.Slice(matches, 0, limit);
    MatchingEntriesSound(history, query);
    assert r == matches[..|r|];
    JsArray.PrefixIsSubsequence(matches, history, |r|);
    forall e | e in r ensures Matches(query, e) {
      assert e in matches;
    }
  }

  /** The matches of `history` are an in-order selection of its entries, each of which matches. */
  lemma MatchingEntriesSound(history: seq<Entry>, query: string)
    ensures JsArray.IsSubsequence(MatchingEntries(history, query), history)
    ensures forall e :: e in MatchingEntries(history, query) ==> Matches(query, e)
  {
    JsArray.FilterIsSubsequence(history, (e: Entry) => Matches(query, e));
  }

  /** A user who has saved nothing has no history and no matches. */
  lemma UnknownUserIsEmpty(m: MemoryService, userId: string, query: string, limit: int)
    requires !m.conversations.Has(userId)
    ensures m.GetConversationHistory(userId, limit) == []
    ensures m.SearchMemory(userId, query, limit) == []
  {
  }

  /** Right after a save, a history window of one is exactly the new, stamped entry. */
  method SaveThenFetchLatest(m: MemoryService, userId: string, interaction: seq<Field>, now: int)
    returns (latest: seq<Entry>)
    requires m.Valid()
    modifies m
    ensures m.Valid()
    ensures latest == [StampEntry(now, interaction)]
  {
    m.SaveInteraction(userId, interaction, now);
    latest := m.GetConversationHistory(userId, 1);
  }
}
