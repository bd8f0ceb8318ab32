/** The history store: a bounded, newest-first list of past analyses kept in one local-storage slot. */
module History {
  import opened Wrappers
  import opened Types
  import Lists

  /** The local-storage key of the slot. */
  const HistoryKey: string := "nutrilens_history"

  /** The most entries the store keeps. */
  const MaxEntries: nat := 20

  /** What the slot holds, as `getHistory` reads it: nothing, the empty string, a serialized list
      (JSON round trip taken as faithful), or text that cannot be read back (parsing throws). */
  datatype Slot = Missing | Blank | Saved(entries: seq<HistoryEntry>) | Unreadable

  /** The ids in a list of entries. */
  function Ids(h: seq<HistoryEntry>): set<string> {
    set e | e in h :: e.id
  }

  /** No id occurs twice. */
  predicate UniqueIds(h: seq<HistoryEntry>)
    decreases |h|
  {
    h == [] || (h[0].id !in Ids(h[1..]) && UniqueIds(h[1..]))
  }

  /** A slot the store itself could have written: unique ids, at most `MaxEntries` of them. */
  predicate WellFormed(slot: Slot) {
    slot.Saved? ==> UniqueIds(slot.entries) && |slot.entries| <= MaxEntries
  }

  /** What `getHistory` returns for a slot: the stored list, or the empty list when the slot is
      missing, blank or unreadable. */
  function Listed(slot: Slot): (h: seq<HistoryEntry>)
    ensures !slot.Saved? ==> h == []
    ensures slot.Saved? ==> h == slot.entries
  {
    if slot.Saved? then slot.entries else []
  }

  /** The list after `unshift(entry)` and `slice(0, MAX_ENTRIES)`. */
  function Prepended(h: seq<HistoryEntry>, entry: HistoryEntry): (r: seq<HistoryEntry>)
    ensures |r| == if |h| < MaxEntries then |h| + 1 else MaxEntries
    ensures r[0] == entry
    ensures forall i :: 1 <= i < |r| ==> r[i] == h[i - 1]
  {
    Lists.Truncate([entry] + h, MaxEntries)
  }

  /** The new entry heads the list, the list is capped, and the rest is the newest part of the old list. */
  lemma PrependedShape(h: seq<HistoryEntry>, entry: HistoryEntry)
    ensures var p := Prepended(h, entry);
      && 1 <= |p| <= MaxEntries
      && p[0] == entry
      && |p| == (if |h| < MaxEntries then |h| + 1 else MaxEntries)
      && p[1..] == h[..|p| - 1]
  {
  }

  /** The filter `e => e.id !== id`. */
  function KeepsOther(id: string): HistoryEntry -> bool {
    (e: HistoryEntry) => e.id != id
  }

  /** `history.filter((e) => e.id !== id)`. */
  function Without(h: seq<HistoryEntry>, id: string): (r: seq<HistoryEntry>)
    ensures |r| <= |h|
    ensures forall i :: 0 <= i < |r| ==> r[i] in h && r[i].id != id
    ensures forall i :: 0 <= i < |h| && h[i].id != id ==> h[i] in r
  {
    Lists.Filter(h, KeepsOther(id))
  }

  /** Deleting removes every entry with the id and keeps every other entry. */
  lemma WithoutRemovesExactly(h: seq<HistoryEntry>, id: string)
    ensures id !in Ids(Without(h, id))
    ensures forall e :: e in h && e.id != id ==> e in Without(h, id)
    ensures forall e :: e in Without(h, id) ==> e in h
  {
    var w := Without(h, id);
    forall e | e in w ensures e in h && e.id != id {
      var i :| 0 <= i < |w| && w[i] == e;
    }
    forall e | e in h && e.id != id ensures e in w {
      var i :| 0 <= i < |h| && h[i] == e;
    }
  }

  /** Deleting keeps the relative order of what stays: it distributes over concatenation. */
  lemma WithoutKeepsOrder(a: seq<HistoryEntry>, b: seq<HistoryEntry>, id: string)
    ensures Without(a + b, id) == Without(a, id) + Without(b, id)
  {
    Lists.FilterConcat(a, b, KeepsOther(id));
  }

  /** Deleting an id that is not there leaves the list as it was. */
  lemma WithoutAbsentId(h: seq<HistoryEntry>, id: string)
    requires id !in Ids(h)
    ensures Without(h, id) == h
  {
    forall i | 0 <= i < |h| ensures KeepsOther(id)(h[i]) {
      assert h[i] in h;
    }
    Lists.FilterKeepsAll(h, KeepsOther(id));
  }

  /** Deleting the same id twice is deleting it once. */
  lemma WithoutTwice(h: seq<HistoryEntry>, id: string)
    ensures Without(Without(h, id), id) == Without(h, id)
  {
    Lists.FilterIdempotent(h, KeepsOther(id));
  }

  lemma {:induction false} UniqueIdsPrefix(h: seq<HistoryEntry>, n: nat)
    requires UniqueIds(h) && n <= |h|
    ensures UniqueIds(h[..n])
    decreases n
  {
    if n > 0 {
      assert h[..n][1..] == h[1..][..n - 1];
      UniqueIdsPrefix(h[1..], n - 1);
      assert Ids(h[..n][1..]) <= Ids(h[1..]);
    }
  }

  lemma WithoutIds(h: seq<HistoryEntry>, id: string)
    ensures Ids(Without(h, id)) <= Ids(h)
  {
    WithoutRemovesExactly(h, id);
  }

  lemma WithoutUnfold(h: seq<HistoryEntry>, id: string)
    requires h != []
    ensures Without(h, id) == (if h[0].id != id then [h[0]] else []) + Without(h[1..], id)
  {
  }

  lemma {:induction false} UniqueIdsWithout(h: seq<HistoryEntry>, id: string)
    requires UniqueIds(h)
    ensures UniqueIds(Without(h, id))
    decreases |h|
  {
    if h != [] {
      var t := Without(h[1..], id);
      UniqueIdsWithout(h[1..], id);
      WithoutIds(h[1..], id);
      WithoutUnfold(h, id);
      if h[0].id != id {
        assert ([h[0]] + t)[1..] == t;
        assert ([h[0]] + t)[0] == h[0];
      } else {
        assert [] + t == t;
      }
    }
  }

  /** Prepending an entry with a fresh id to a well-formed list and capping it keeps it well-formed. */
  lemma PrependedWellFormed(h: seq<HistoryEntry>, entry: HistoryEntry)
    requires UniqueIds(h) && entry.id !in Ids(h)
    ensures WellFormed(Saved(Prepended(h, entry)))
  {
    assert ([entry] + h)[1..] == h;
    UniqueIdsPrefix([entry] + h, |Prepended(h, entry)|);
  }

  /** The list after saving each of `es` in turn, every write succeeding. */
  function SavedAll(h: seq<HistoryEntry>, es: seq<HistoryEntry>): seq<HistoryEntry>
    decreases |es|
  {
    if es == [] then h else SavedAll(Prepended(h, es[0]), es[1..])
  }

  /** Saving a sequence of entries leaves the newest of them first, followed by the old list, capped. */
  lemma {:induction false} SavedAllIsCappedReverse(h: seq<HistoryEntry>, es: seq<HistoryEntry>)
    requires |h| <= MaxEntries
    ensures SavedAll(h, es) == Lists.Truncate(Lists.Reverse(es) + h, MaxEntries)
    decreases |es|
  {
    if es == [] {
      assert Lists.Reverse(es) + h == h;
    } else {
      var rest := es[1..];
      SavedAllIsCappedReverse(Prepended(h, es[0]), rest);
      Lists.TruncateTail(Lists.Reverse(rest), [es[0]] + h, MaxEntries);
      assert Lists.Reverse(es) == Lists.Reverse(rest) + [es[0]];
      assert Lists.Reverse(rest) + ([es[0]] + h) == Lists.Reverse(es) + h;
    }
  }

  /** After at least `MaxEntries` saves the store holds exactly the `MaxEntries` most recent entries,
      newest first. */
  lemma KeepsMostRecent(h: seq<HistoryEntry>, es: seq<HistoryEntry>)
    requires |h| <= MaxEntries && |es| >= MaxEntries
    ensures |SavedAll(h, es)| == MaxEntries
    ensures forall i :: 0 <= i < MaxEntries ==> SavedAll(h, es)[i] == es[|es| - 1 - i]
  {
    SavedAllIsCappedReverse(h, es);
    var r := Lists.Reverse(es);
    assert (r + h)[..MaxEntries] == r[..MaxEntries];
  }

  /** The local-storage slot and the four operations on it. Storage failures are inputs:
      `writeOk` / `removeOk` say whether `setItem` / `removeItem` succeeded. */
  class HistoryStore {
    var slot: Slot

    ghost predicate Valid()
      reads this
    {
      WellFormed(slot)
    }

    constructor (initial: Slot)
      requires WellFormed(initial)
      ensures Valid() && slot == initial
    {
      slot := initial;
    }

    /** The list `getHistory` would return now. */
    function Entries(): seq<HistoryEntry>
      reads this
    {
      Listed(slot)
    }

    /** `getHistory`: reads the slot and never writes it, so two reads in a row agree. */
    method GetHistory() returns (h: seq<HistoryEntry>)
      ensures h == Entries()
      ensures slot.Missing? || slot.Blank? || slot.Unreadable? ==> h == []
      ensures slot.Saved? ==> h == slot.entries
    {
      match slot
      case Saved(entries) => h := entries;
      case _ => h := [];
    }

    /** `saveToHistory`: builds the entry, prepends it to the current list, caps the list and writes it.
        A failed write is swallowed: the entry is returned all the same and the slot is left as it was. */
    method SaveToHistory(result: AnalysisResult, imageDataUrl: string, id: string, timestamp: int, writeOk: bool)
      returns (entry: HistoryEntry)
      requires Valid() && id !in Ids(Entries())
      modifies this
      ensures Valid()
      ensures entry.id == id && entry.timestamp == timestamp
      ensures entry.imageUrl == imageDataUrl && entry.result == result
      ensures writeOk ==> slot == Saved(Prepended(old(Entries()), entry))
      ensures writeOk ==> Entries()[0] == entry && |Entries()| <= MaxEntries
      ensures !writeOk ==> slot == old(slot)
    {
      entry := HistoryEntry(id, timestamp, imageDataUrl, result);
      var history := GetHistory();
      history := [entry] + history;
      var trimmed := if |history| <= MaxEntries then history else history[..MaxEntries];
      PrependedWellFormed(Entries(), entry);
      if writeOk {
        slot := Saved(trimmed);
      }
    }

    /** `deleteHistoryEntry`: writes back the list without the entries that have the id.
        A failed write is swallowed. */
    method DeleteHistoryEntry(id: string, writeOk: bool)
      requires Valid()
      modifies this
      ensures Valid()
      ensures writeOk ==> slot == Saved(Without(old(Entries()), id))
      ensures writeOk ==> id !in Ids(Entries())
      ensures !writeOk ==> slot == old(slot)
    {
      var history := GetHistory();
      var kept := Without(history, id);
      UniqueIdsWithout(history, id);
      WithoutRemovesExactly(history, id);
      if writeOk {
        slot := Saved(kept);
      }
    }

    /** `clearHistory`: removes the slot, after which the list reads as empty. A failed removal is swallowed. */
    method ClearHistory(removeOk: bool)
      requires Valid()
      modifies this
      ensures Valid()
      ensures removeOk ==> slot == Missing && Entries() == []
      ensures !removeOk ==> slot == old(slot)
    {
      if removeOk {
        slot := Missing;
      }
    }
  }
}
