/**
 * The command in a reply to the corndog bot (`EatACorndogService#call`):
 * the reply's text, lower-cased and split into words, with every word
 * mentioning "tenshi" dropped, selects what gets posted.
 *
 * Rendering the reply's HTML to text, the account search, the image
 * composition and the posting are not part of this model; the capture of
 * `Account::MENTION_RE` on a word is a parameter.
 */
module Corndog {
  import opened Wrappers
  import opened Text

  /** Whose avatar the tenshi eats. */
  datatype Eater =
    | RepliedToAuthor        // `let me eat`: the author of the status replied to
    | Search(query: string)  // the account found by searching for `query`

  datatype Command =
    | PostOriginal           // `eat`: the fixed picture of the tenshi eating a corndog
    | Composite(eater: Eater)
    | NoPost

  /** The first word of `s`, which starts with a character that is not white space. */
  function TakeWord(s: string): (w: string)
    requires |s| > 0 && !IsSpace(s[0])
    ensures 0 < |w| <= |s| && w == s[..|w|]
    ensures forall i :: 0 <= i < |w| ==> !IsSpace(w[i])
    ensures |w| == |s| || IsSpace(s[|w|])
  {
    if |s| == 1 || IsSpace(s[1]) then [s[0]] else [s[0]] + TakeWord(s[1..])
  }

  /** Ruby's `split` with no argument: the maximal runs of characters that are not white space. */
  function Words(s: string): (r: seq<string>)
    ensures forall j :: 0 <= j < |r| ==> |r[j]| > 0 && forall i :: 0 <= i < |r[j]| ==> !IsSpace(r[j][i])
    decreases |s|
  {
    if s == [] then []
    else if IsSpace(s[0]) then Words(s[1..])
    else
      var w := TakeWord(s);
      [w] + Words(s[|w|..])
  }

  /** Words joined by single spaces. */
  function Join(ws: seq<string>): string {
    if ws == [] then "" else if |ws| == 1 then ws[0] else ws[0] + " " + Join(ws[1..])
  }

  predicate IsWord(w: string) {
    |w| > 0 && forall i :: 0 <= i < |w| ==> !IsSpace(w[i])
  }

  lemma TakeWordOfJoin(w: string, rest: string)
    requires IsWord(w)
    ensures TakeWord(w + rest) == w || (|rest| > 0 && !IsSpace(rest[0]))
    decreases |w|
  {
    if |w| > 1 {
      assert (w + rest)[1..] == w[1..] + rest;
      TakeWordOfJoin(w[1..], rest);
    }
  }

  /** Splitting words joined by single spaces gives the words back. */
  lemma {:induction false} WordsOfJoin(ws: seq<string>)
    requires forall j :: 0 <= j < |ws| ==> IsWord(ws[j])
    ensures Words(Join(ws)) == ws
  {
    if ws == [] {
    } else if |ws| == 1 {
      TakeWordOfJoin(ws[0], "");
      assert ws[0] + "" == ws[0];
      assert ws[0][|ws[0]|..] == [];
    } else {
      var s := Join(ws);
      var rest := Join(ws[1..]);
      assert s == ws[0] + (" " + rest);
      TakeWordOfJoin(ws[0], " " + rest);
      assert s[|ws[0]|..] == " " + rest;
      assert (" " + rest)[1..] == rest;
      WordsOfJoin(ws[1..]);
    }
  }

  /** The words kept: those without "tenshi" in them. */
  function Kept(ws: seq<string>): (r: seq<string>)
    ensures |r| <= |ws|
    ensures forall w :: w in r <==> w in ws && !Occurs(w, "tenshi")
  {
    if ws == [] then []
    else if Occurs(ws[0], "tenshi") then Kept(ws[1..])
    else [ws[0]] + Kept(ws[1..])
  }

  /** Keeping distributes over concatenation: the kept words stay in their order. */
  lemma {:induction false} KeptAppend(a: seq<string>, b: seq<string>)
    ensures Kept(a + b) == Kept(a) + Kept(b)
  {
    if a == [] {
      assert a + b == b;
    } else {
      assert (a + b)[1..] == a[1..] + b;
      KeptAppend(a[1..], b);
    }
  }

  /** The classification in `call`: by the first word, then by the third. */
  function Classify(text: string, mentionCapture: string -> Option<string>): (r: Command)
    ensures var words := Kept(Words(Downcase(text)));
      && (r.PostOriginal? <==> |words| > 0 && words[0] == "eat")
      && (r.Composite? <==> |words| > 2 && words[0] == "let" && words[2] == "eat")
      && (r.Composite? ==> (r.eater.RepliedToAuthor? <==> words[1] == "me"))
      && (r.Composite? && r.eater.Search? ==> r.eater.query == mentionCapture(words[1]).GetOr(words[1]))
  {
    var words := Kept(Words(Downcase(text)));
    if |words| > 0 && words[0] == "eat" then PostOriginal
    else if |words| > 2 && words[0] == "let" && words[2] == "eat" then
      if words[1] == "me" then Composite(RepliedToAuthor)
      else Composite(Search(mentionCapture(words[1]).GetOr(words[1])))
    else NoPost
  }

  /** Lower-case text is its own `downcase`. */
  lemma DowncaseLower(s: string)
    requires forall i :: 0 <= i < |s| ==> Lower(s[i]) == s[i]
    ensures Downcase(s) == s
  {
  }

  /** Joining lower-case words gives lower-case text. */
  lemma {:induction false} JoinLower(ws: seq<string>)
    requires forall j, i :: 0 <= j < |ws| && 0 <= i < |ws[j]| ==> Lower(ws[j][i]) == ws[j][i]
    ensures forall i :: 0 <= i < |Join(ws)| ==> Lower(Join(ws)[i]) == Join(ws)[i]
  {
    if |ws| > 1 {
      JoinLower(ws[1..]);
      var rest := Join(ws[1..]);
      assert Join(ws) == ws[0] + " " + rest;
      forall i | 0 <= i < |Join(ws)| ensures Lower(Join(ws)[i]) == Join(ws)[i] {
        if i < |ws[0]| {
          assert Join(ws)[i] == ws[0][i];
        } else if i > |ws[0]| {
          assert Join(ws)[i] == rest[i - |ws[0]| - 1];
        }
      }
    }
  }

  /**
   * "let X eat …", written in lower case with single spaces and no word
   * mentioning "tenshi": the tenshi eats the author replied to when X is
   * "me", and otherwise whoever X's mention names (or X itself).
   */
  lemma LetEat(x: string, rest: seq<string>, mentionCapture: string -> Option<string>)
    requires var ws := ["let", x, "eat"] + rest;
      forall j :: 0 <= j < |ws| ==>
        (IsWord(ws[j]) && !Occurs(ws[j], "tenshi") && forall i :: 0 <= i < |ws[j]| ==> Lower(ws[j][i]) == ws[j][i])
    ensures Classify(Join(["let", x, "eat"] + rest), mentionCapture)
            == Composite(if x == "me" then RepliedToAuthor else Search(mentionCapture(x).GetOr(x)))
  {
    var ws := ["let", x, "eat"] + rest;
    JoinLower(ws);
    DowncaseLower(Join(ws));
    WordsOfJoin(ws);
    KeptAll(ws);
  }

  /** With no word mentioning "tenshi", every word is kept. */
  lemma {:induction false} KeptAll(ws: seq<string>)
    requires forall j :: 0 <= j < |ws| ==> !Occurs(ws[j], "tenshi")
    ensures Kept(ws) == ws
  {
    if ws != [] {
      assert !Occurs(ws[0], "tenshi");
      KeptAll(ws[1..]);
    }
  }

  /** A word mentioning "tenshi" in front of the command does not hide it. */
  lemma TenshiIgnored(text: string, mentionCapture: string -> Option<string>)
    ensures Classify("tenshi, " + text, mentionCapture) == Classify(text, mentionCapture)
  {
    var ws := Words(Downcase(text));
    WordsAfterTenshi(text);
    assert Occurs("tenshi,", "tenshi");
    assert (["tenshi,"] + ws)[1..] == ws;
  }

  lemma WordsAfterTenshi(text: string)
    ensures Words(Downcase("tenshi, " + text)) == ["tenshi,"] + Words(Downcase(text))
  {
    var s := "tenshi, " + text;
    assert Downcase(s) == "tenshi, " + Downcase(text);
    var d := Downcase(s);
    assert d == "tenshi," + (" " + Downcase(text));
    TakeWordOfJoin("tenshi,", " " + Downcase(text));
    assert d[|"tenshi,"|..] == " " + Downcase(text);
    assert (" " + Downcase(text))[1..] == Downcase(text);
  }
}
