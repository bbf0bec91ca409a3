/**
 * The preview card under a status
 * (app/javascript/mastodon/features/status/components/card.js): which view
 * a card gets, and, for a link card, the provider shown and the shortened
 * description. Host names are shown with their ASCII-compatible labels
 * ("xn--…", section 5 of RFC 3490) decoded.
 *
 * Punycode decoding (RFC 3492) is a parameter `decode`, None where it
 * throws; reading the host name out of a URL is done by the browser and
 * is a parameter too. The rendered markup is not part of this model.
 */
module StatusCard {
  import opened Wrappers
  import opened Text

  const IDNA_PREFIX: string := "xn--"

  predicate NoDot(w: string) {
    forall i :: 0 <= i < |w| ==> w[i] != '.'
  }

  /** `split('.')`: the labels between dots; the empty string is one empty label. */
  function Split(s: string): (r: seq<string>)
    ensures |r| >= 1
    ensures forall k :: 0 <= k < |r| ==> forall i :: 0 <= i < |r[k]| ==> r[k][i] != '.'
    decreases |s|
  {
    var n := IndexOf(s, '.');
    if n == |s| then [s] else [s[..n]] + Split(s[n + 1..])
  }

  /** `join('.')` */
  function Join(labels: seq<string>): string {
    if labels == [] then "" else if |labels| == 1 then labels[0] else labels[0] + "." + Join(labels[1..])
  }

  /** Labels without dots split back out of their join. */
  lemma {:induction false} SplitJoin(labels: seq<string>)
    requires |labels| >= 1 && forall k :: 0 <= k < |labels| ==> NoDot(labels[k])
    ensures Split(Join(labels)) == labels
  {
    var w := labels[0];
    if |labels| == 1 {
      IndexOfAfter(w, "", '.');
      assert w + "" == w;
    } else {
      var tail := labels[1..];
      assert forall k :: 0 <= k < |tail| ==> tail[k] == labels[k + 1];
      SplitJoin(tail);
      JoinCons(labels);
      SplitCons(w, Join(tail));
      assert labels == [w] + tail;
    }
  }

  lemma JoinCons(labels: seq<string>)
    requires |labels| > 1
    ensures Join(labels) == labels[0] + ("." + Join(labels[1..]))
  {
  }

  /** A label without dots, a dot, then more: the label comes off first. */
  lemma SplitCons(w: string, rest: string)
    requires NoDot(w)
    ensures Split(w + ("." + rest)) == [w] + Split(rest)
  {
    var s := w + ("." + rest);
    IndexOfAfter(w, "." + rest, '.');
    assert s[..|w|] == w;
    assert s[|w| + 1..] == rest;
  }

  /** One label: decoded when it starts with "xn--" (in that case exactly), kept otherwise. */
  function DecodeLabel(part: string, decode: string -> Option<string>): (r: Option<string>)
    ensures !HasPrefix(part, IDNA_PREFIX) ==> r == Some(part)
    ensures HasPrefix(part, IDNA_PREFIX) ==> r == decode(part[|IDNA_PREFIX|..])
  {
    if HasPrefix(part, IDNA_PREFIX) then decode(part[|IDNA_PREFIX|..]) else Some(part)
  }

  /** Each label in turn; None as soon as one fails to decode. */
  function DecodeLabels(labels: seq<string>, decode: string -> Option<string>): (r: Option<seq<string>>)
    ensures r.Some? <==> forall k :: 0 <= k < |labels| ==> DecodeLabel(labels[k], decode).Some?
    ensures r.Some? ==> |r.value| == |labels|
                        && forall k :: 0 <= k < |labels| ==> Some(r.value[k]) == DecodeLabel(labels[k], decode)
  {
    if labels == [] then Some([])
    else
      match (DecodeLabel(labels[0], decode), DecodeLabels(labels[1..], decode))
      case (Some(l), Some(ls)) => Some([l] + ls)
      case _ => None
  }

  /** `decodeIDNA`: the labels of `domain`, each decoded in place, joined by dots again. */
  function DecodeIDNA(domain: string, decode: string -> Option<string>): (r: Option<string>)
    ensures r.Some? <==> LabelsDecode(Split(domain), decode)
  {
    var d := DecodeLabels(Split(domain), decode);
    if d.None? then None else Some(Join(d.value))
  }

  /** Every label decodes. */
  predicate LabelsDecode(labels: seq<string>, decode: string -> Option<string>) {
    forall k :: 0 <= k < |labels| ==> DecodeLabel(labels[k], decode).Some?
  }

  /**
   * Decoding keeps the labels, their number and their order: when no
   * decoded label holds a dot, splitting the result gives, label by
   * label, the decoded labels of the domain.
   */
  lemma DecodeIDNAKeepsLabels(domain: string, decode: string -> Option<string>)
    requires DecodeLabels(Split(domain), decode).Some?
    requires forall k :: 0 <= k < |DecodeLabels(Split(domain), decode).value| ==> NoDot(DecodeLabels(Split(domain), decode).value[k])
    ensures DecodeIDNA(domain, decode).Some?
    ensures Split(DecodeIDNA(domain, decode).value) == DecodeLabels(Split(domain), decode).value
    ensures |Split(DecodeIDNA(domain, decode).value)| == |Split(domain)|
  {
    SplitJoin(DecodeLabels(Split(domain), decode).value);
  }

  /** A domain without an ASCII-compatible label is shown as it is. */
  lemma DecodeIDNAPlain(domain: string, decode: string -> Option<string>)
    requires forall k :: 0 <= k < |Split(domain)| ==> !HasPrefix(Split(domain)[k], IDNA_PREFIX)
    ensures DecodeIDNA(domain, decode) == Some(domain)
  {
    var labels := Split(domain);
    var r := DecodeLabels(labels, decode);
    assert r.Some?;
    assert r.value == labels;
    SplitOfJoin(domain);
  }

  /** Joining the labels of a string gives the string. */
  lemma {:induction false} SplitOfJoin(s: string)
    ensures Join(Split(s)) == s
    decreases |s|
  {
    var n := IndexOf(s, '.');
    if n < |s| {
      SplitOfJoin(s[n + 1..]);
      assert Split(s) == [s[..n]] + Split(s[n + 1..]);
      assert s == s[..n] + "." + s[n + 1..];
    }
  }

  /** The card's fields this model reads. */
  datatype Card = Card(kind: string, url: string, title: string, description: Option<string>,
                       image: string, providerName: string)

  /** What a link card shows besides its title. */
  datatype LinkView = LinkView(image: Option<string>, description: string, provider: Option<string>)

  datatype View =
    | Nothing
    | LinkCard(link: LinkView)
    | PhotoCard(src: string, alt: string)
    | VideoCard(statusId: int)

  /** `(description || '').substring(0, 50)`: at most the first fifty characters, empty when absent. */
  function ShortDescription(description: Option<string>): (r: string)
    ensures description.None? ==> r == ""
    ensures description.Some? ==> r == description.value[..if |description.value| < 50 then |description.value| else 50]
    ensures |r| <= 50
  {
    var d := if description.Some? then description.value else "";
    d[..if |d| < 50 then |d| else 50]
  }

  /** The provider: its name, or the decoded host name of the card's URL when the name is empty. */
  function Provider(providerName: string, hostname: string, decode: string -> Option<string>): (r: Option<string>)
    ensures |providerName| >= 1 ==> r == Some(providerName)
    ensures |providerName| < 1 ==> r == DecodeIDNA(hostname, decode)
  {
    if |providerName| < 1 then DecodeIDNA(hostname, decode) else Some(providerName)
  }

  /** `renderLink`; a provider that fails to decode is None. */
  function RenderLink(card: Card, hostname: string, decode: string -> Option<string>): (v: LinkView)
    ensures v.image.Some? <==> card.image != ""
    ensures v.image.Some? ==> v.image.value == card.image
    ensures card.description.None? ==> v.description == ""
    ensures |v.description| <= 50
    ensures card.description.Some? ==>
              var d := card.description.value; v.description == d[..if |d| < 50 then |d| else 50]
    ensures card.providerName != "" ==> v.provider == Some(card.providerName)
    ensures card.providerName == "" ==> v.provider == DecodeIDNA(hostname, decode)
  {
    LinkView(if card.image != "" then Some(card.image) else None,
             ShortDescription(card.description),
             Provider(card.providerName, hostname, decode))
  }

  /** `render`: nothing for no card and for "rich" or unknown kinds; a link, photo or video view otherwise. */
  function Render(card: Option<Card>, statusId: int, hostname: string, decode: string -> Option<string>): (v: View)
    ensures card.None? ==> v == Nothing
    ensures v.LinkCard? <==> card.Some? && card.value.kind == "link"
    ensures v.PhotoCard? <==> card.Some? && card.value.kind == "photo"
    ensures v.VideoCard? <==> card.Some? && card.value.kind == "video"
    ensures v.VideoCard? ==> v.statusId == statusId
    ensures card.Some? && card.value.kind !in {"link", "photo", "video"} ==> v == Nothing
  {
    match card
    case None => Nothing
    case Some(c) =>
      if c.kind == "link" then LinkCard(RenderLink(c, hostname, decode))
      else if c.kind == "photo" then PhotoCard(c.url, c.title)
      else if c.kind == "video" then VideoCard(statusId)
      else Nothing
  }

  /** A long description shows exactly its first fifty characters; a short one is shown whole. */
  lemma ShortDescriptionPrefix(d: string)
    ensures HasPrefix(d, ShortDescription(Some(d)))
    ensures |d| <= 50 ==> ShortDescription(Some(d)) == d
    ensures |d| >= 50 ==> |ShortDescription(Some(d))| == 50
  {
  }
}
