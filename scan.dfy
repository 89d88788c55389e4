/**
 * Reading a ticket id from what the door staff paste into the scan form:
 * either a bare id or a ticket URL ending in `/qr/<digits>` (optionally
 * with one trailing slash), as the pattern `/qr/(\d+)/?$` picks it out.
 */
module TicketScan {
  import opened Text
  import opened Models

  /** The longest run of digits that `s` ends with. */
  function TrailingDigits(s: string): (r: string)
    ensures AllDigits(r) && |r| <= |s| && s[|s| - |r|..] == r
    ensures |r| < |s| ==> !IsDigit(s[|s| - |r| - 1])
    decreases |s|
  {
    if s != [] && IsDigit(s[|s| - 1]) then TrailingDigits(s[..|s| - 1]) + [s[|s| - 1]] else []
  }

  /** `s` without one trailing "/", if it has one: the `/?` of the pattern. */
  function DropSlash(s: string): string {
    if |s| > 0 && s[|s| - 1] == '/' then s[..|s| - 1] else s
  }

  /** `match.group(1) if match else raw_input` for the pattern
      `/qr/(\d+)/?$` searched in the stripped input. */
  function ExtractTicketId(raw: string): (id: string)
    ensures id == raw
      || (IsNumeral(id)
          && exists p :: raw == p + "/qr/" + id || raw == p + "/qr/" + id + "/")
  {
    var body := DropSlash(raw);
    var d := TrailingDigits(body);
    var n := |body| - |d|;
    if d != [] && n >= 4 && body[n - 4..n] == "/qr/" then
      UrlShape(raw, n, d);
      d
    else raw
  }

  /** Names the prefix of a URL the pattern matched. */
  lemma UrlShape(raw: string, n: nat, d: string)
    requires d == TrailingDigits(DropSlash(raw)) && n == |DropSlash(raw)| - |d|
    requires 4 <= n && DropSlash(raw)[n - 4..n] == "/qr/"
    ensures var p := DropSlash(raw)[..n - 4];
      raw == p + "/qr/" + d || raw == p + "/qr/" + d + "/"
  {
    var body := DropSlash(raw);
    assert body == body[..n - 4] + "/qr/" + d;
  }

  lemma {:induction false} TrailingDigitsAfterSlash(q: string, d: string)
    requires |q| > 0 && q[|q| - 1] == '/' && AllDigits(d)
    ensures TrailingDigits(q + d) == d
    decreases |d|
  {
    if d == [] {
      assert q + d == q;
    } else {
      var init := d[..|d| - 1];
      TrailingDigitsAfterSlash(q, init);
      assert (q + d)[..|q + d| - 1] == q + init;
    }
  }

  /** A pasted ticket URL yields the digits after its last `/qr/`, with or
      without the trailing slash. */
  lemma ExtractFromUrl(p: string, d: string, slash: bool)
    requires IsNumeral(d)
    ensures ExtractTicketId(p + "/qr/" + d + (if slash then "/" else "")) == d
  {
    var body := p + "/qr/" + d;
    var raw := body + (if slash then "/" else "");
    assert DropSlash(raw) == body by {
      if slash {
        assert raw[..|raw| - 1] == body;
      } else {
        assert raw == body && IsDigit(raw[|raw| - 1]);
      }
    }
    TrailingDigitsAfterSlash(p + "/qr/", d);
    assert body == (p + "/qr/") + d;
    var n := |body| - |d|;
    assert body[n - 4..n] == "/qr/";
  }

  /** Input that does not end in a ticket URL is taken whole. */
  lemma ExtractBareId(raw: string)
    requires forall i :: 0 <= i < |raw| ==> raw[i] != '/'
    ensures ExtractTicketId(raw) == raw
  {
    var body := DropSlash(raw);
    assert body == raw;
    var n := |body| - |TrailingDigits(body)|;
    assert n >= 4 ==> body[n - 4..n] != "/qr/" by {
      if n >= 4 {
        assert body[n - 4..n][0] == body[n - 4] != '/';
      }
    }
  }

  /** `int(ticket_id)` as the id lookup applies it: an optional sign and
      decimal digits, anything else fails. */
  function ParseTicketId(s: string): (r: Option<int>)
    ensures IsNumeral(s) ==> r == Some(Value(s))
    ensures r.Some? <==> IsNumeral(s) || (|s| > 1 && (s[0] == '+' || s[0] == '-') && IsNumeral(s[1..]))
  {
    if IsNumeral(s) then Some(Value(s))
    else if |s| > 1 && s[0] == '+' && IsNumeral(s[1..]) then Some(Value(s[1..]))
    else if |s| > 1 && s[0] == '-' && IsNumeral(s[1..]) then Some(0 - Value(s[1..]) as int)
    else None
  }

  /** What `admin_scan_tickets` reads from the posted text: the id of a
      pasted URL or the whole stripped input, through `int`. */
  function ScannedId(raw: string): Option<int> {
    ParseTicketId(ExtractTicketId(Strip(raw)))
  }

  /** The id printed in a ticket's URL is read back as that ticket's id. */
  lemma TicketUrlRoundTrip(p: string, id: nat, slash: bool)
    ensures ParseTicketId(ExtractTicketId(p + "/qr/" + Decimal(id) + (if slash then "/" else ""))) == Some(id)
  {
    ExtractFromUrl(p, Decimal(id), slash);
    ValueOfDecimal(id);
  }
}
