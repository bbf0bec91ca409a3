/**
 * The streaming server's message payload (`dataPayload` in
 * mastodon-gostreaming/api.go): the raw JSON bytes of the `payload` field,
 * and, when that field is a JSON string, its decoded contents.
 *
 * Decoding a JSON string (section 7 of RFC 8259) is done by Go's
 * encoding/json, which is a parameter here: `decode` gives the decoded
 * bytes, or None for malformed input.
 */
module StreamingData {
  import opened Wrappers

  newtype Byte = b: int | 0 <= b < 256

  /** The bytes of an ASCII string. */
  function Ascii(s: string): (r: seq<Byte>)
    requires forall i :: 0 <= i < |s| ==> s[i] as int < 256
    ensures |r| == |s| && forall i :: 0 <= i < |s| ==> r[i] as int == s[i] as int
  {
    seq(|s|, i requires 0 <= i < |s| => s[i] as int as Byte)
  }

  const QUOTE: Byte := 34

  /** Input that `UnmarshalJSON` decodes: at least two bytes, the first a double quote. */
  predicate Quoted(input: seq<Byte>) {
    |input| >= 2 && input[0] == QUOTE
  }

  class DataPayload {
    var marshalled: seq<Byte>
    var unmarshalled: seq<Byte>

    /** The zero value: nothing stored, so it marshals to nothing. */
    constructor()
      ensures marshalled == [] && unmarshalled == []
      ensures MarshalJSON() == []
    {
      marshalled := [];
      unmarshalled := [];
    }

    /** `MarshalJSON`: the stored raw bytes, never an error. */
    function MarshalJSON(): seq<Byte>
      reads this
    {
      marshalled
    }

    /**
     * `UnmarshalJSON`: keep the raw bytes; decode them as a JSON string when
     * they are quoted, reporting malformed input; leave the decoded contents
     * alone otherwise.
     */
    method UnmarshalJSON(input: seq<Byte>, decode: seq<Byte> -> Option<seq<Byte>>) returns (err: bool)
      modifies this
      ensures MarshalJSON() == input
      ensures err <==> Quoted(input) && decode(input).None?
      ensures unmarshalled == if Quoted(input) && decode(input).Some? then decode(input).value else old(unmarshalled)
    {
      marshalled := input;
      if |input| >= 2 && input[0] == QUOTE {
        match decode(input)
        case None =>
          err := true;
        case Some(s) =>
          unmarshalled := s;
          err := false;
      } else {
        err := false;
      }
    }
  }
}
