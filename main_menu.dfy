/** The main menu's high-score text: one line per score in list order, lines joined
    by a carriage return and line feed, or a row of dashes when there are no scores. */
module MainMenu {
  import opened DecimalText
  import Settings

  /** Shown in place of the list when no score has been recorded. */
  const Placeholder: string := "---------------------"

  const Separator: string := "\r\n"

  /** The scores of a non-empty list, each as decimal text, separated by line breaks. */
  function JoinScores(h: seq<int>): string
    requires |h| >= 1
  {
    if |h| == 1 then DecimalString(h[0])
    else JoinScores(h[..|h| - 1]) + Separator + DecimalString(h[|h| - 1])
  }

  /** The text the menu shows for a high-score list. */
  function HighscoreText(h: seq<int>): string
  {
    if |h| == 0 then Placeholder else JoinScores(h)
  }

  // ---------------------------------------------------------------------------
  // Reading the text back

  /** Splits a text at every carriage return that is followed by a line feed. */
  function SplitLines(s: string): (lines: seq<string>)
    ensures |lines| >= 1
  {
    if |s| == 0 then [""]
    else if |s| >= 2 && s[0] == '\r' && s[1] == '\n' then [""] + SplitLines(s[2..])
    else
      var rest := SplitLines(s[1..]);
      [[s[0]] + rest[0]] + rest[1..]
  }

  /** The list a high-score text shows. */
  function ParseHighscoreText(text: string): seq<int>
  {
    if text == Placeholder then []
    else
      var lines := SplitLines(text);
      seq(|lines|, i requires 0 <= i < |lines| => ParseDecimal(lines[i]))
  }

  predicate NoCarriageReturn(w: string)
  {
    forall i :: 0 <= i < |w| ==> w[i] != '\r'
  }

  lemma {:induction false} SplitSingleLine(w: string)
    requires NoCarriageReturn(w)
    ensures SplitLines(w) == [w]
  {
    if |w| > 0 {
      SplitSingleLine(w[1..]);
      assert [w[0]] + w[1..] == w;
    }
  }

  /** Appending a separator and a line without carriage returns appends one line. */
  lemma {:induction false} SplitAppend(a: string, w: string)
    requires NoCarriageReturn(w)
    ensures SplitLines(a + Separator + w) == SplitLines(a) + [w]
    decreases |a|
  {
    var t := a + Separator + w;
    if |a| == 0 {
      assert t == Separator + w;
      assert t[2..] == w;
      SplitSingleLine(w);
    } else if |a| >= 2 && a[0] == '\r' && a[1] == '\n' {
      assert t[2..] == a[2..] + Separator + w;
      SplitAppend(a[2..], w);
    } else {
      assert t[1..] == a[1..] + Separator + w;
      SplitAppend(a[1..], w);
      var rest := SplitLines(a[1..]);
      assert SplitLines(t) == [[a[0]] + rest[0]] + (rest + [w])[1..];
      assert (rest + [w])[1..] == rest[1..] + [w];
    }
  }

  /** Splitting the joined text gives back the text of each score, in list order. */
  lemma {:induction false} SplitJoined(h: seq<int>)
    requires |h| >= 1
    ensures SplitLines(JoinScores(h)) == ScoreLines(h)
  {
    var last := DecimalString(h[|h| - 1]);
    assert NoCarriageReturn(last);
    if |h| == 1 {
      SplitSingleLine(last);
      assert ScoreLines(h) == [last];
    } else {
      var init := h[..|h| - 1];
      SplitJoined(init);
      SplitAppend(JoinScores(init), last);
      assert JoinScores(h) == JoinScores(init) + Separator + last;
      assert ScoreLines(h) == ScoreLines(init) + [last];
    }
  }

  /** The text of each score of a list, in list order. */
  function ScoreLines(h: seq<int>): seq<string>
  {
    seq(|h|, i requires 0 <= i < |h| => DecimalString(h[i]))
  }

  /** The menu text shows exactly the list: the placeholder appears exactly for the
      empty list, and reading the text back gives the list itself. */
  lemma HighscoreTextRoundTrip(h: seq<int>)
    ensures HighscoreText(h) == Placeholder <==> |h| == 0
    ensures ParseHighscoreText(HighscoreText(h)) == h
  {
    if |h| > 0 {
      var text := JoinScores(h);
      JoinStartsWithNumber(h);
      assert text != Placeholder by {
        assert Placeholder[0] == '-' && Placeholder[1] == '-';
      }
      SplitJoined(h);
      forall i | 0 <= i < |h|
        ensures ParseDecimal(DecimalString(h[i])) == h[i]
      {
        DecimalRoundTrip(h[i]);
      }
    }
  }

  /** The joined text begins with the text of the first score, so it starts with a
      digit or with a minus sign and a digit. */
  lemma {:induction false} JoinStartsWithNumber(h: seq<int>)
    requires |h| >= 1
    ensures |JoinScores(h)| >= 2 ==> IsDigit(JoinScores(h)[0]) || IsDigit(JoinScores(h)[1])
    ensures IsDigit(JoinScores(h)[0]) || JoinScores(h)[0] == '-'
  {
    if |h| > 1 {
      JoinStartsWithNumber(h[..|h| - 1]);
    } else {
      var d := DecimalString(h[0]);
      assert d[0] == '-' ==> |d| >= 2 && IsDigit(d[1]);
    }
  }

  /** Occurrences of a character in a text. */
  function CountChar(s: string, c: char): nat
  {
    if s == [] then 0 else CountChar(s[..|s| - 1], c) + (if s[|s| - 1] == c then 1 else 0)
  }

  lemma {:induction false} CountCharAppend(a: string, b: string, c: char)
    ensures CountChar(a + b, c) == CountChar(a, c) + CountChar(b, c)
    decreases |b|
  {
    if b != [] {
      assert (a + b)[..|a + b| - 1] == a + b[..|b| - 1];
      CountCharAppend(a, b[..|b| - 1], c);
    } else {
      assert a + b == a;
    }
  }

  lemma {:induction false} NoCarriageReturnCount(w: string)
    requires NoCarriageReturn(w)
    ensures CountChar(w, '\r') == 0
  {
    if w != [] {
      NoCarriageReturnCount(w[..|w| - 1]);
    }
  }

  /** A list of n scores gives n - 1 line breaks and ends with a digit, so no line
      break trails the last score. */
  lemma {:induction false} SeparatorCount(h: seq<int>)
    requires |h| >= 1
    ensures CountChar(JoinScores(h), '\r') == |h| - 1
    ensures IsDigit(JoinScores(h)[|JoinScores(h)| - 1])
  {
    var last := DecimalString(h[|h| - 1]);
    NoCarriageReturnCount(last);
    if |h| > 1 {
      var init := JoinScores(h[..|h| - 1]);
      SeparatorCount(h[..|h| - 1]);
      CountCharAppend(init + Separator, last, '\r');
      CountCharAppend(init, Separator, '\r');
      assert CountChar(Separator, '\r') == 1 by {
        assert Separator[..1] == "\r";
        assert Separator[..1][..0] == [];
      }
    }
  }

  // ---------------------------------------------------------------------------
  // The panel

  class MainMenuPanel {
    const settings: Settings.SettingsManager
    /** The text of the high-score label. */
    var highscoreListText: string

    constructor(settings: Settings.SettingsManager)
      ensures this.settings == settings && highscoreListText == ""
    {
      this.settings := settings;
      highscoreListText := "";
    }

    /** Writes the stored high scores into the label, without changing the store. */
    method DisplayHighscore()
      requires settings.Valid()
      modifies this
      ensures highscoreListText == HighscoreText(settings.currentPlayerData.highscores)
      ensures unchanged(settings, settings.currentPlayerData)
    {
      var highscores := settings.GetHighscores();
      if |highscores| == 0 {
        highscoreListText := Placeholder;
      } else {
        var newText := "";
        for i := 0 to |highscores|
          invariant i == 0 ==> newText == ""
          invariant 0 < i ==> newText == JoinScores(highscores[..i]) + (if i < |highscores| then Separator else "")
        {
          newText := newText + DecimalString(highscores[i]) + (if i != |highscores| - 1 then Separator else "");
          assert highscores[..i + 1][..i] == highscores[..i];
        }
        assert highscores[..|highscores|] == highscores;
        highscoreListText := newText;
      }
    }
  }
}
