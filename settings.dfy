/** Persistent player data: the bounded, descending high-score list and its store.
    Writing to disk is represented by a counter of save operations, and reading the
    save file by an abstract outcome of the load. */
module Settings {

  /** The most high scores the list keeps. */
  const MaxNumHighscores: nat := 10

  predicate Ascending(s: seq<int>)
  {
    forall i, j :: 0 <= i < j < |s| ==> s[i] <= s[j]
  }

  predicate Descending(s: seq<int>)
  {
    forall i, j :: 0 <= i < j < |s| ==> s[i] >= s[j]
  }

  // ---------------------------------------------------------------------------
  // The list operations the store relies on: an ascending sort and a reversal.

  function Insert(x: int, s: seq<int>): (r: seq<int>)
    requires Ascending(s)
    ensures |r| == |s| + 1 && Ascending(r)
    ensures forall i :: 0 <= i < |r| ==> r[i] == x || r[i] in s
    ensures multiset(r) == multiset(s) + multiset{x}
  {
    if s == [] || x <= s[0] then
      [x] + s
    else
      var rest := Insert(x, s[1..]);
      assert s == [s[0]] + s[1..];
      assert forall i :: 0 <= i < |rest| ==> s[0] <= rest[i];
      [s[0]] + rest
  }

  /** The list's own ascending sort. */
  function SortAscending(s: seq<int>): (r: seq<int>)
    ensures |r| == |s| && Ascending(r)
    ensures multiset(r) == multiset(s)
  {
    if s == [] then
      []
    else
      assert s == [s[0]] + s[1..];
      Insert(s[0], SortAscending(s[1..]))
  }

  /** The list's own in-place reversal. */
  function Reverse(s: seq<int>): (r: seq<int>)
    ensures |r| == |s|
    ensures forall i :: 0 <= i < |s| ==> r[i] == s[|s| - 1 - i]
  {
    if s == [] then [] else Reverse(s[1..]) + [s[0]]
  }

  /** Reversing keeps the elements and turns an ascending list into a descending one. */
  lemma {:induction false} ReverseOfAscending(s: seq<int>)
    ensures multiset(Reverse(s)) == multiset(s)
    ensures Ascending(s) ==> Descending(Reverse(s))
  {
    if s != [] {
      ReverseOfAscending(s[1..]);
      assert s == [s[0]] + s[1..];
    }
  }

  // ---------------------------------------------------------------------------
  // Offering a score to the list

  /** The new list and whether the store was saved. */
  datatype HighscoreUpdate = HighscoreUpdate(highscores: seq<int>, saved: bool)

  /** The entries kept when a score is admitted: trailing entries are removed until
      fewer than the maximum remain. */
  function Retained(h: seq<int>): seq<int>
  {
    if |h| >= MaxNumHighscores then h[..MaxNumHighscores - 1] else h
  }

  /** The effect of offering `newScore` to the list `h`. */
  function OfferScore(h: seq<int>, newScore: int): HighscoreUpdate
  {
    if |h| == 0 then
      HighscoreUpdate([newScore], true)
    else if |h| >= MaxNumHighscores && h[MaxNumHighscores - 1] > newScore then
      HighscoreUpdate(h[..MaxNumHighscores], false)
    else
      HighscoreUpdate(Reverse(SortAscending(Retained(h) + [newScore])), true)
  }

  /** An empty list takes the score as its only entry, and the store is saved. */
  lemma OfferToEmpty(newScore: int)
    ensures OfferScore([], newScore) == HighscoreUpdate([newScore], true)
  {
  }

  /** A score is admitted exactly when the list is not full or the score reaches its
      tenth entry (a tie is admitted); a rejected score leaves the first ten entries
      and no save, so a full list of exactly ten is unchanged. */
  lemma AdmissionRule(h: seq<int>, newScore: int)
    ensures OfferScore(h, newScore).saved <==>
              (|h| < MaxNumHighscores || h[MaxNumHighscores - 1] <= newScore)
    ensures !OfferScore(h, newScore).saved ==>
              OfferScore(h, newScore).highscores == h[..MaxNumHighscores]
    ensures |h| == MaxNumHighscores && h[MaxNumHighscores - 1] > newScore ==>
              OfferScore(h, newScore) == HighscoreUpdate(h, false)
  {
  }

  /** After an admitted score the list is in non-increasing order. */
  lemma AdmittedIsDescending(h: seq<int>, newScore: int)
    requires OfferScore(h, newScore).saved
    ensures Descending(OfferScore(h, newScore).highscores)
  {
    if |h| > 0 {
      ReverseOfAscending(SortAscending(Retained(h) + [newScore]));
    }
  }

  /** After an admitted score the list has at most ten entries: one more than before
      when it was not full, exactly ten when it was. */
  lemma AdmittedLength(h: seq<int>, newScore: int)
    requires OfferScore(h, newScore).saved
    ensures |OfferScore(h, newScore).highscores| <= MaxNumHighscores
    ensures |h| < MaxNumHighscores ==> |OfferScore(h, newScore).highscores| == |h| + 1
    ensures |h| >= MaxNumHighscores ==> |OfferScore(h, newScore).highscores| == MaxNumHighscores
  {
  }

  /** An admitted score leaves the entries of a prefix of the old list (only trailing
      entries are removed, and only while the list is full) plus the new score. */
  lemma AdmittedContents(h: seq<int>, newScore: int)
    requires OfferScore(h, newScore).saved
    ensures Retained(h) == h[..|Retained(h)|]
    ensures |Retained(h)| == (if |h| >= MaxNumHighscores then MaxNumHighscores - 1 else |h|)
    ensures multiset(OfferScore(h, newScore).highscores) == multiset(Retained(h)) + multiset{newScore}
  {
    if |h| > 0 {
      ReverseOfAscending(SortAscending(Retained(h) + [newScore]));
    }
  }

  /** On a descending list of at most ten entries, offering a score keeps the best
      entries of the old list plus the score: the result is descending, as long as the
      old list plus one (at most ten), drawn from the old entries and the score, and
      every entry that is dropped is no larger than any entry that is kept. */
  lemma OfferKeepsBest(h: seq<int>, newScore: int)
    requires Descending(h) && |h| <= MaxNumHighscores
    ensures KeepsBest(h, newScore, OfferScore(h, newScore).highscores)
  {
    var u := OfferScore(h, newScore);
    if !u.saved {
      RejectedKeepsBest(h, newScore);
    } else if |h| == MaxNumHighscores {
      CaseFull(h, newScore);
    } else {
      CaseRoom(h, newScore);
    }
  }

  lemma CaseFull(h: seq<int>, newScore: int)
    requires Descending(h) && |h| == MaxNumHighscores && OfferScore(h, newScore).saved
    ensures KeepsBest(h, newScore, OfferScore(h, newScore).highscores)
  {
    var r := OfferScore(h, newScore).highscores;
    AdmittedIsDescending(h, newScore);
    AdmittedContents(h, newScore);
    AdmittedLength(h, newScore);
    FullAdmittedKeepsBest(h, newScore, r);
    assert multiset(h) == multiset(Retained(h)) + multiset{h[MaxNumHighscores - 1]} by {
      assert h == Retained(h) + [h[MaxNumHighscores - 1]];
    }
  }

  lemma CaseRoom(h: seq<int>, newScore: int)
    requires |h| < MaxNumHighscores && OfferScore(h, newScore).saved
    ensures KeepsBest(h, newScore, OfferScore(h, newScore).highscores)
  {
    var r := OfferScore(h, newScore).highscores;
    AdmittedIsDescending(h, newScore);
    AdmittedContents(h, newScore);
    AdmittedLength(h, newScore);
    NothingDropped(h, newScore, r);
  }

  /** `r` holds the best entries of `h` and `newScore`, in non-increasing order, as
      many as fit in the list. */
  ghost predicate KeepsBest(h: seq<int>, newScore: int, r: seq<int>)
  {
    && Descending(r)
    && |r| == (if |h| < MaxNumHighscores then |h| + 1 else MaxNumHighscores)
    && multiset(r) <= multiset(h) + multiset{newScore}
    && forall a, b :: a in (multiset(h) + multiset{newScore}) - multiset(r) && b in r ==> a <= b
  }

  lemma NothingDropped(h: seq<int>, newScore: int, r: seq<int>)
    requires multiset(r) == multiset(h) + multiset{newScore}
    ensures (multiset(h) + multiset{newScore}) - multiset(r) == multiset{}
  {
  }

  /** The last entry of a descending list is its smallest. */
  lemma LastIsSmallest(h: seq<int>, b: int)
    requires Descending(h) && |h| > 0 && b in h
    ensures h[|h| - 1] <= b
  {
    var j :| 0 <= j < |h| && h[j] == b;
  }

  lemma RejectedKeepsBest(h: seq<int>, newScore: int)
    requires Descending(h) && |h| == MaxNumHighscores && h[MaxNumHighscores - 1] > newScore
    ensures OfferScore(h, newScore).highscores == h
    ensures forall a, b :: a in (multiset(h) + multiset{newScore}) - multiset(h) && b in h ==> a <= b
  {
    assert h[..MaxNumHighscores] == h;
    assert multiset(h) <= multiset(h) + multiset{newScore};
    assert (multiset(h) + multiset{newScore}) - multiset(h) == multiset{newScore};
    forall a, b | a in (multiset(h) + multiset{newScore}) - multiset(h) && b in h
      ensures a <= b
    {
      LastIsSmallest(h, b);
    }
  }

  lemma FullAdmittedKeepsBest(h: seq<int>, newScore: int, r: seq<int>)
    requires Descending(h) && |h| == MaxNumHighscores && h[MaxNumHighscores - 1] <= newScore
    requires multiset(r) == multiset(h[..MaxNumHighscores - 1]) + multiset{newScore}
    ensures forall a, b :: a in (multiset(h) + multiset{newScore}) - multiset(r) && b in r ==> a <= b
  {
    var kept := h[..MaxNumHighscores - 1];
    var last := h[MaxNumHighscores - 1];
    assert h == kept + [last];
    assert multiset(h) == multiset(kept) + multiset{last};
    assert (multiset(h) + multiset{newScore}) - multiset(r) == multiset{last};
    forall a, b | a in (multiset(h) + multiset{newScore}) - multiset(r) && b in r
      ensures a <= b
    {
      assert b in multiset(kept) + multiset{newScore};
      if b != newScore {
        assert b in kept;
        assert b in h;
        LastIsSmallest(h, b);
      }
    }
  }

  // ---------------------------------------------------------------------------
  // The store

  /** The saved player record. */
  class PlayerData {
    var highscores: seq<int>

    constructor()
      ensures highscores == []
    {
      highscores := [];
    }
  }

  /** What reading the save file can give: no file, a file that does not decode, or
      the list that was saved. */
  datatype SavedFile = NoFile | Unreadable | Readable(highscores: seq<int>)

  class SettingsManager {
    /** The player data in memory; null only while the store is being built. */
    var currentPlayerData: PlayerData?
    /** How many times the player data has been written to disk. */
    var saveCount: nat

    ghost predicate Valid()
      reads this
    {
      currentPlayerData != null
    }

    /** Loads the save file; when there is none, saves (and so creates) an empty record. */
    constructor(file: SavedFile)
      ensures Valid() && fresh(currentPlayerData)
      ensures file.Readable? ==> currentPlayerData.highscores == file.highscores && saveCount == 0
      ensures !file.Readable? ==> currentPlayerData.highscores == [] && saveCount == 1
    {
      currentPlayerData := null;
      saveCount := 0;
      new;
      var data := LoadSavedPlayerData(file);
      currentPlayerData := data;
      if currentPlayerData == null {
        Save();
      }
    }

    /** Writes the player data, first installing an empty record when there is none. */
    method Save()
      modifies this
      ensures saveCount == old(saveCount) + 1
      ensures old(currentPlayerData) != null ==> currentPlayerData == old(currentPlayerData)
      ensures old(currentPlayerData) == null ==>
                currentPlayerData != null && fresh(currentPlayerData) && currentPlayerData.highscores == []
    {
      if currentPlayerData == null {
        currentPlayerData := new PlayerData();
      }
      saveCount := saveCount + 1;
    }

    /** Reads the save file. A missing file gives null; a file that does not decode is
        overwritten by a save and the data in memory is returned instead. */
    method LoadSavedPlayerData(file: SavedFile) returns (data: PlayerData?)
      modifies this
      ensures file.NoFile? ==> data == null && unchanged(this)
      ensures file.Readable? ==>
                data != null && fresh(data) && data.highscores == file.highscores && unchanged(this)
      ensures file.Unreadable? ==>
                saveCount == old(saveCount) + 1 && data == currentPlayerData && data != null
      ensures file.Unreadable? && old(currentPlayerData) == null ==> fresh(data) && data.highscores == []
      ensures file.Unreadable? && old(currentPlayerData) != null ==> data == old(currentPlayerData)
    {
      match file
      case NoFile =>
        data := null;
      case Readable(h) =>
        data := new PlayerData();
        data.highscores := h;
      case Unreadable =>
        Save();
        data := currentPlayerData;
    }

    /** The high-score list in memory. */
    function GetHighscores(): (h: seq<int>)
      requires Valid()
      reads this, currentPlayerData
      ensures h == currentPlayerData.highscores
    {
      currentPlayerData.highscores
    }

    /** Offers a final score to the list: admits it when the list is empty, not full,
        or the score reaches the tenth entry; trims trailing entries; re-sorts in
        descending order; saves after every admission. */
    method AddHighscore(newScore: int)
      requires Valid()
      modifies this, currentPlayerData
      ensures Valid() && currentPlayerData == old(currentPlayerData)
      ensures currentPlayerData.highscores == OfferScore(old(currentPlayerData.highscores), newScore).highscores
      ensures saveCount == old(saveCount) + (if OfferScore(old(currentPlayerData.highscores), newScore).saved then 1 else 0)
    {
      var data := currentPlayerData;
      ghost var h := data.highscores;
      if |data.highscores| == 0 {
        data.highscores := data.highscores + [newScore];
        Save();
        return;
      }
      while |data.highscores| >= MaxNumHighscores
        invariant currentPlayerData == data && saveCount == old(saveCount)
        invariant |data.highscores| <= |h| && data.highscores == h[..|data.highscores|]
        invariant |h| >= MaxNumHighscores ==> |data.highscores| >= MaxNumHighscores - 1
        invariant |h| < MaxNumHighscores ==> data.highscores == h
        invariant |data.highscores| < MaxNumHighscores && |h| >= MaxNumHighscores ==>
                    h[MaxNumHighscores - 1] <= newScore
        decreases |data.highscores|
      {
        if |data.highscores| == MaxNumHighscores {
          if data.highscores[MaxNumHighscores - 1] > newScore {
            return;
          }
        }
        data.highscores := data.highscores[..|data.highscores| - 1];
      }
      assert data.highscores == Retained(h);
      data.highscores := data.highscores + [newScore];
      data.highscores := SortAscending(data.highscores);
      data.highscores := Reverse(data.highscores);
      Save();
    }
  }
}
