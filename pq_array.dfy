/**
 * `pqInt64Buffer` (mastodon-gostreaming/db.go): the text of a PostgreSQL
 * array of 64-bit integers, built by appending each number and a comma
 * to "{" and closing it by overwriting the last comma with "}".
 *
 * The buffer's bytes are ASCII here, so they are written as characters.
 */
module PQArray {
  import opened Wrappers
  import Decimal
  import opened Text

  /** Strings each followed by a comma. */
  function Terminated(ws: seq<string>): (s: string)
    ensures ws == [] <==> s == []
    ensures ws != [] ==> s[|s| - 1] == ','
  {
    if ws == [] then "" else ws[0] + "," + Terminated(ws[1..])
  }

  lemma {:induction false} TerminatedSnoc(ws: seq<string>, w: string)
    ensures Terminated(ws + [w]) == Terminated(ws) + w + ","
  {
    if ws != [] {
      var t := ws[0] + ",";
      assert (ws + [w])[0] == ws[0];
      assert (ws + [w])[1..] == ws[1..] + [w];
      TerminatedSnoc(ws[1..], w);
      calc {
        Terminated(ws + [w]);
        t + Terminated(ws[1..] + [w]);
        t + (Terminated(ws[1..]) + w + ",");
        (t + Terminated(ws[1..])) + w + ",";
      }
    }
  }

  /** The base-10 text of each number. */
  function Texts(ids: seq<int>): (r: seq<string>)
    ensures |r| == |ids| && forall i :: 0 <= i < |ids| ==> r[i] == Decimal.Show(ids[i])
  {
    seq(|ids|, i requires 0 <= i < |ids| => Decimal.Show(ids[i]))
  }

  /** What follows "{" after writing `ids`: each number in base 10, then a comma. */
  function Elements(ids: seq<int>): (s: string)
    ensures ids == [] <==> s == []
    ensures ids != [] ==> s[|s| - 1] == ','
  {
    Terminated(Texts(ids))
  }

  /** Writing one more number appends its text and a comma. */
  lemma ElementsSnoc(ids: seq<int>, x: int)
    ensures Elements(ids + [x]) == Elements(ids) + Decimal.Show(x) + ","
  {
    var a, b := Texts(ids + [x]), Texts(ids) + [Decimal.Show(x)];
    forall i | 0 <= i < |a| ensures a[i] == b[i] {
      assert (ids + [x])[i] == if i < |ids| then ids[i] else x;
    }
    assert a == b;
    TerminatedSnoc(Texts(ids), Decimal.Show(x));
  }

  /** The array literal `{a1,…,an}`, `{}` when empty. */
  function Literal(ids: seq<int>): (s: string)
    ensures |s| >= 2 && s[0] == '{' && s[|s| - 1] == '}'
  {
    if ids == [] then "{}"
    else
      var e := Elements(ids);
      "{" + e[..|e| - 1] + "}"
  }

  /** The comma-terminated fields of `s`; None when text follows the last comma. */
  function Fields(s: string): (r: Option<seq<string>>)
    decreases |s|
  {
    if s == [] then Some([])
    else
      var n := IndexOf(s, ',');
      if n == |s| then None
      else
        match Fields(s[n + 1..])
        case None => None
        case Some(fs) => Some([s[..n]] + fs)
  }

  /** Each field as a 64-bit number. */
  function ParseAll(fs: seq<string>): (r: Option<seq<int>>)
    ensures r.Some? ==> |r.value| == |fs| && forall i :: 0 <= i < |fs| ==> Decimal.ParseInt64(fs[i]) == Some(r.value[i])
  {
    if fs == [] then Some([])
    else
      match (Decimal.ParseInt64(fs[0]), ParseAll(fs[1..]))
      case (Some(x), Some(xs)) => Some([x] + xs)
      case _ => None
  }

  /** Numbers each followed by a comma. */
  function ParseElements(s: string): (r: Option<seq<int>>)
  {
    match Fields(s)
    case None => None
    case Some(fs) => ParseAll(fs)
  }

  /** Reading an array literal back. */
  function ParseLiteral(s: string): (r: Option<seq<int>>)
    ensures s == "{}" ==> r == Some([])
    ensures !(|s| >= 2 && s[0] == '{' && s[|s| - 1] == '}') ==> r == None
  {
    if |s| >= 2 && s[0] == '{' && s[|s| - 1] == '}' then
      var body := s[1..|s| - 1];
      if body == [] then Some([]) else ParseElements(body + ",")
    else None
  }

  lemma ShowHasNoComma(x: int)
    ensures NoComma(Decimal.Show(x))
  {
    var s := Decimal.Show(x);
    if x < 0 {
      forall i | 0 <= i < |s| ensures s[i] != ',' {
        if i > 0 {
          assert s[i] == s[1..][i - 1];
        }
      }
    }
  }

  predicate NoComma(w: string) {
    forall i :: 0 <= i < |w| ==> w[i] != ','
  }

  /** Splitting comma-terminated fields gives them back. */
  lemma {:induction false} FieldsOfTerminated(ws: seq<string>)
    requires forall j :: 0 <= j < |ws| ==> NoComma(ws[j])
    ensures Fields(Terminated(ws)) == Some(ws)
  {
    if ws != [] {
      var w := ws[0];
      var rest := Terminated(ws[1..]);
      var s := Terminated(ws);
      assert ws == [w] + ws[1..];
      assert s == w + ("," + rest);
      IndexOfAfter(w, "," + rest, ',');
      assert s[..|w|] == w;
      assert s[|w| + 1..] == rest;
      FieldsOfTerminated(ws[1..]);
    }
  }

  lemma {:induction false} ParseAllOfTexts(ids: seq<int>)
    requires AllInt64(ids)
    ensures ParseAll(Texts(ids)) == Some(ids)
  {
    if ids != [] {
      var t := Texts(ids);
      Decimal.ParseInt64OfShow(ids[0]);
      assert Decimal.ParseInt64(t[0]) == Some(ids[0]);
      assert t[1..] == Texts(ids[1..]);
      ParseAllOfTexts(ids[1..]);
      assert ParseAll(t[1..]) == Some(ids[1..]);
      assert [ids[0]] + ids[1..] == ids;
    }
  }

  lemma ParseElementsOfElements(ids: seq<int>)
    requires AllInt64(ids)
    ensures ParseElements(Elements(ids)) == Some(ids)
  {
    forall j | 0 <= j < |ids| ensures NoComma(Texts(ids)[j]) {
      ShowHasNoComma(ids[j]);
    }
    FieldsOfTerminated(Texts(ids));
    ParseAllOfTexts(ids);
  }

  /** Every array literal of 64-bit numbers reads back as the numbers written. */
  lemma LiteralRoundTrip(ids: seq<int>)
    requires AllInt64(ids)
    ensures ParseLiteral(Literal(ids)) == Some(ids)
  {
    if ids != [] {
      var e := Elements(ids);
      var s := Literal(ids);
      assert |Decimal.Show(ids[0])| >= 1;
      assert |e| >= 2;
      assert s[1..|s| - 1] == e[..|e| - 1];
      assert e[..|e| - 1] + "," == e;
      ParseElementsOfElements(ids);
    }
  }

  predicate AllInt64(ids: seq<int>) {
    forall i :: 0 <= i < |ids| ==> Decimal.IsInt64(ids[i])
  }

  lemma WriteStep(bytes: string, written: seq<int>, id: int)
    requires bytes == "{" + Elements(written) && AllInt64(written) && Decimal.IsInt64(id)
    ensures bytes + Decimal.Show(id) + "," == "{" + Elements(written + [id])
    ensures AllInt64(written + [id])
  {
    ElementsSnoc(written, id);
    var e, w := Elements(written), Decimal.Show(id);
    OpenSnoc(e, w);
    AllInt64Snoc(written, id);
  }

  lemma OpenSnoc(e: string, w: string)
    ensures "{" + e + w + "," == "{" + (e + w + ",")
  {
  }

  lemma AllInt64Snoc(ids: seq<int>, id: int)
    requires AllInt64(ids) && Decimal.IsInt64(id)
    ensures AllInt64(ids + [id])
  {
    assert forall i :: 0 <= i < |ids| ==> (ids + [id])[i] == ids[i];
  }

  /** `pqInt64Buffer` with the numbers written to it. */
  class Buffer {
    var bytes: string
    ghost var written: seq<int>

    ghost predicate Valid()
      reads this
    {
      bytes == "{" + Elements(written) && AllInt64(written)
    }

    /** `newPQInt64Buffer`: the capacity hint never shows in the contents. */
    constructor(number: nat)
      ensures Valid() && written == [] && bytes == "{"
    {
      bytes := "{";
      written := [];
    }

    /** `write`: the number in base 10, then a comma. */
    method Write(id: int)
      requires Valid() && Decimal.IsInt64(id)
      modifies this
      ensures Valid() && written == old(written) + [id]
      ensures bytes == old(bytes) + Decimal.Show(id) + ","
    {
      WriteStep(bytes, written, id);
      bytes := bytes + Decimal.Show(id) + ",";
      written := written + [id];
    }

    /**
     * `finalize`: the array literal of the numbers written. The last comma
     * is overwritten in the buffer itself, which then holds the literal
     * too; an empty buffer is left as it was.
     */
    method Finalize() returns (r: string)
      requires Valid()
      modifies this
      ensures r == Literal(written) && written == old(written)
      ensures bytes == if |old(bytes)| > 1 then r else old(bytes)
    {
      if |bytes| > 1 {
        bytes := bytes[..|bytes| - 1] + "}";
        r := bytes;
      } else {
        r := bytes + "}";
      }
    }
  }
}
