/**
 * The values the HTTP framework hands to the adapter and takes back from it:
 * request methods, raw header values and responses as status, headers and body.
 */
module Http {
  import opened Wrappers

  newtype byte = x: int | 0 <= x < 256

  /** A request method; the HTTP layer parses every standard name to its own constructor, so an `Extension` never carries one. */
  datatype Method = Get | Post | Put | Patch | Delete | Head | Options | Connect | Trace | Extension(name: string)

  /** A header value is raw bytes; it need not be text. */
  datatype HeaderValue = HeaderValue(bytes: seq<byte>)

  /** Header names are case-insensitive; the map is keyed by the lower-case name and holds the first value sent. */
  type HeaderMap = map<string, HeaderValue>

  /** The bytes `HeaderValue::to_str` accepts: visible ASCII and horizontal tab. */
  predicate IsVisibleAscii(b: byte) {
    b == 9 || 32 <= b < 127
  }

  predicate IsHeaderText(s: string) {
    forall i :: 0 <= i < |s| ==> s[i] == '\t' || ' ' <= s[i] <= '~'
  }

  /** The header value holding the text `s` (`HeaderValue::from_static`, and the bytes a `&str` compares with). */
  function FromText(s: string): (v: HeaderValue)
    requires IsHeaderText(s)
    ensures |v.bytes| == |s|
  {
    HeaderValue(seq(|s|, i requires 0 <= i < |s| => s[i] as int as byte))
  }

  /** `HeaderValue::to_str`: the value as text when every byte is visible ASCII or tab, otherwise an error. */
  function ToStr(v: HeaderValue): (r: Option<string>)
    ensures r.Some? <==> forall i :: 0 <= i < |v.bytes| ==> IsVisibleAscii(v.bytes[i])
    ensures r.Some? ==> IsHeaderText(r.value)
  {
    if forall i :: 0 <= i < |v.bytes| ==> IsVisibleAscii(v.bytes[i]) then
      Some(seq(|v.bytes|, i requires 0 <= i < |v.bytes| => v.bytes[i] as int as char))
    else
      None
  }

  /** Reading back text written into a header gives the same text. */
  lemma ToStrFromText(s: string)
    requires IsHeaderText(s)
    ensures ToStr(FromText(s)) == Some(s)
  {
    var v := FromText(s);
    assert forall i :: 0 <= i < |v.bytes| ==> IsVisibleAscii(v.bytes[i]) by {
      forall i | 0 <= i < |v.bytes| ensures IsVisibleAscii(v.bytes[i]) {
        assert v.bytes[i] as int == s[i] as int;
      }
    }
    assert ToStr(v).value == s;
  }

  /** A value that reads as text is exactly the header value of that text. */
  lemma FromTextToStr(v: HeaderValue)
    requires ToStr(v).Some?
    ensures FromText(ToStr(v).value) == v
  {
    var s := ToStr(v).value;
    assert FromText(s).bytes == v.bytes;
  }

  const StatusOk: nat := 200
  const StatusConflict: nat := 409

  const ContentType := "content-type"
  const JsonContentType := "application/json"
  const HtmlContentType := "text/html; charset=utf-8"

  datatype Body = NoBody | JsonBody(json: string) | HtmlBody(html: string)

  datatype HttpResponse = HttpResponse(status: nat, headers: seq<(string, string)>, body: Body)
}
