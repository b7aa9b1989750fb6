/** Canonical header names (headers.go, `shortToLong` and `CanonicalName`). */
module HeaderNames {
  import opened Basics
  import opened Text

  /** The compact forms of `shortToLong`. */
  function CompactForm(c: char): Option<string> {
    match c
    case 'i' => Some("Call-ID")
    case 'f' => Some("From")
    case 't' => Some("To")
    case 'v' => Some("Via")
    case 'm' => Some("Contact")
    case 'c' => Some("Content-Type")
    case 'l' => Some("Content-Length")
    case 'k' => Some("Supported")
    case 's' => Some("Subject")
    case 'r' => Some("Refer-To")
    case 'u' => Some("Allow-Events")
    case 'e' => Some("Content-Encoding")
    case 'j' => Some("Reject-Contact")
    case 'd' => Some("Request-Disposition")
    case 'a' => Some("Accept-Contact")
    case 'x' => Some("Session-Expires")
    case 'y' => Some("Identity")
    case 'n' => Some("Identity-Info")
    case 'o' => Some("Event")
    case 'b' => Some("Referred-By")
    case 'q' => Some("Target-Dialog")
    case _ => None
  }

  /** The other keys of `shortToLong`, grouped by length. */
  function IrregularForm(key: string): Option<string> {
    match |key|
    case 4 => if key == "cseq" then Some("CSeq") else None
    case 6 => if key == "min-se" then Some("Min-SE") else None
    case 7 => if key == "call-id" then Some("Call-ID") else None
    case 8 => if key == "refer-to" then Some("Refer-To") else None
    case 10 => if key == "user-agent" then Some("User-Agent") else None
    case 11 =>
      if key == "referred-by" then Some("Referred-By")
      else if key == "retry-after" then Some("Retry-After")
      else if key == "in-reply-to" then Some("In-Reply-To")
      else None
    case 12 =>
      if key == "allow-events" then Some("Allow-Events")
      else if key == "content-type" then Some("Content-Type")
      else if key == "max-forwards" then Some("Max-Forwards")
      else if key == "record-route" then Some("Record-Route")
      else None
    case 13 =>
      if key == "identity-info" then Some("Identity-Info")
      else if key == "target-dialog" then Some("Target-Dialog")
      else None
    case 14 =>
      if key == "accept-contact" then Some("Accept-Contact")
      else if key == "content-length" then Some("Content-Length")
      else if key == "reject-contact" then Some("Reject-Contact")
      else None
    case 15 =>
      if key == "session-expires" then Some("Session-Expires")
      else if key == "accept-encoding" then Some("Accept-Encoding")
      else if key == "accept-language" then Some("Accept-Language")
      else None
    case 16 => if key == "www-authenticate" then Some("WWW-Authenticate") else None
    case 18 => if key == "proxy-authenticate" then Some("Proxy-Authenticate") else None
    case 19 =>
      if key == "proxy-authorization" then Some("Proxy-Authorization")
      else if key == "p-asserted-identity" then Some("P-Asserted-Identity")
      else if key == "request-disposition" then Some("Request-Disposition")
      else None
    case _ => None
  }

  /** A lookup in `shortToLong`. */
  function LongForm(key: string): Option<string> {
    if |key| == 1 then CompactForm(key[0]) else IrregularForm(key)
  }

  /** The capitalisation of a name that is not in the table: the first letter of every dash-separated
      part in upper case, the rest in lower case. */
  function TitleCase(s: string): (r: string)
    ensures |r| == |s|
  {
    seq(|s|, i requires 0 <= i < |s| => if i == 0 || s[i - 1] == '-' then UpperChar(s[i]) else LowerChar(s[i]))
  }

  function Canonical(name: string): string {
    var trimmed := TrimSpace(name);
    var lower := Lower(trimmed);
    if LongForm(lower).Some? then LongForm(lower).value else TitleCase(trimmed)
  }

  // ------------------------------------------------------------------ the loop over the parts

  function Capitalize(part: string): string {
    if part == "" then part else [UpperChar(part[0])] + Lower(part[1..])
  }

  function CapitalizeAll(parts: seq<string>): seq<string> {
    seq(|parts|, i requires 0 <= i < |parts| => Capitalize(parts[i]))
  }

  /** strings.Join on a one-character separator. */
  function Join(parts: seq<string>, c: char): string
    requires |parts| > 0
  {
    if |parts| == 1 then parts[0] else parts[0] + [c] + Join(parts[1..], c)
  }

  lemma TitleAt(s: string, i: nat)
    requires '-' !in s && i < |s|
    ensures |Capitalize(s)| == |s| && TitleCase(s)[i] == Capitalize(s)[i]
  {
    if i > 0 {
      assert s[i - 1] in s;
      assert Capitalize(s)[i] == Lower(s[1..])[i - 1];
    }
  }

  lemma TitleOfOne(s: string)
    requires '-' !in s
    ensures TitleCase(s) == Capitalize(s)
  {
    hide TitleCase, Capitalize;
    if s == "" {
      NoTitle();
    } else {
      TitleAt(s, 0);
      forall i | 0 <= i < |s| ensures TitleCase(s)[i] == Capitalize(s)[i] {
        TitleAt(s, i);
      }
    }
  }

  lemma NoTitle()
    ensures TitleCase("") == Capitalize("")
  {
  }

  lemma TitleOfTwo(a: string, b: string)
    requires '-' !in a
    ensures TitleCase(a + ['-'] + b) == Capitalize(a) + ['-'] + TitleCase(b)
  {
    var s := a + ['-'] + b;
    TitleOfOne(a);
    forall i | 0 <= i < |s| ensures TitleCase(s)[i] == (TitleCase(a) + ['-'] + TitleCase(b))[i] {
      if i > |a| + 1 {
        assert s[i - 1] == b[i - 1 - (|a| + 1)];
      } else if 0 < i <= |a| {
        assert s[i - 1] == a[i - 1];
        assert a[i - 1] in a;
      }
    }
  }

  lemma {:induction false} TitleByParts(s: string)
    ensures Join(CapitalizeAll(Split(s, '-')), '-') == TitleCase(s)
    decreases |s|
  {
    var i := IndexOf(s, '-');
    if i < 0 {
      TitleOfOne(s);
    } else {
      var a, b := s[..i], s[i + 1..];
      assert s == a + ['-'] + b;
      TitleByParts(b);
      TitleOfTwo(a, b);
      var parts := CapitalizeAll(Split(s, '-'));
      assert parts[1..] == CapitalizeAll(Split(b, '-'));
    }
  }

  method CanonicalName(name: string) returns (canonical: string)
    ensures canonical == Canonical(name)
  {
    var trimmed := TrimSpace(name);
    if LongForm(Lower(trimmed)).Some? {
      return LongForm(Lower(trimmed)).value;
    }
    var split := Split(trimmed, '-');
    var parts := split;
    for i := 0 to |parts|
      invariant |parts| == |split|
      invariant forall k :: 0 <= k < i ==> parts[k] == Capitalize(split[k])
      invariant forall k :: i <= k < |split| ==> parts[k] == split[k]
    {
      if parts[i] != "" {
        parts := parts[i := [UpperChar(parts[i][0])] + Lower(parts[i][1..])];
      }
    }
    assert parts == CapitalizeAll(split);
    TitleByParts(trimmed);
    return Join(parts, '-');
  }

  // ------------------------------------------------------------------ case and table

  lemma TitleFold(s: string)
    ensures Lower(TitleCase(s)) == Lower(s)
    ensures TitleCase(Lower(s)) == TitleCase(s)
    ensures TitleCase(TitleCase(s)) == TitleCase(s)
  {
  }

  lemma {:induction false} TrimLeftLower(s: string)
    ensures TrimLeft(Lower(s)) == Lower(TrimLeft(s))
  {
    if s != "" && IsSpace(s[0]) {
      assert Lower(s)[1..] == Lower(s[1..]);
      TrimLeftLower(s[1..]);
    }
  }

  lemma {:induction false} TrimRightLower(s: string)
    ensures TrimRight(Lower(s)) == Lower(TrimRight(s))
  {
    if s != "" && IsSpace(s[|s| - 1]) {
      assert Lower(s)[..|s| - 1] == Lower(s[..|s| - 1]);
      TrimRightLower(s[..|s| - 1]);
    }
  }

  /** Lookup ignores case. */
  lemma CanonicalIgnoresCase(a: string, b: string)
    requires EqualFold(a, b)
    ensures Canonical(a) == Canonical(b)
  {
    TrimLeftLower(a);
    TrimLeftLower(b);
    TrimRightLower(TrimLeft(a));
    TrimRightLower(TrimLeft(b));
    TitleFold(TrimSpace(a));
    TitleFold(TrimSpace(b));
  }

  /** A name whose lower-case form is a key of the table for that very name. */
  predicate SelfKeyed(name: string) {
    Trimmed(name) && LongForm(Lower(name)) == Some(name)
  }

  lemma WwwAuthenticateKeyed()
    ensures SelfKeyed("WWW-Authenticate")
  {
    assert Lower("WWW-Authenticate") == "www-authenticate";
  }

  lemma ProxyAuthenticateKeyed()
    ensures SelfKeyed("Proxy-Authenticate")
  {
    assert Lower("Proxy-Authenticate") == "proxy-authenticate";
  }

  lemma ProxyAuthorizationKeyed()
    ensures SelfKeyed("Proxy-Authorization")
  {
    assert Lower("Proxy-Authorization") == "proxy-authorization";
  }

  lemma AssertedIdentityKeyed()
    ensures SelfKeyed("P-Asserted-Identity")
  {
    assert Lower("P-Asserted-Identity") == "p-asserted-identity";
  }

  lemma ShortNamesKeyed()
    ensures SelfKeyed("CSeq") && SelfKeyed("Call-ID") && SelfKeyed("Refer-To") && SelfKeyed("Referred-By")
  {
    assert Lower("CSeq") == "cseq" && Lower("Call-ID") == "call-id" && Lower("Refer-To") == "refer-to" && Lower("Referred-By") == "referred-by";
  }

  lemma SessionExpiresKeyed()
    ensures SelfKeyed("Session-Expires")
  {
    assert Lower("Session-Expires") == "session-expires";
  }

  lemma AcceptContactKeyed()
    ensures SelfKeyed("Accept-Contact") && SelfKeyed("Min-SE")
  {
    assert Lower("Accept-Contact") == "accept-contact" && Lower("Min-SE") == "min-se";
  }

  lemma ContentLengthKeyed()
    ensures SelfKeyed("Allow-Events") && SelfKeyed("Content-Length")
  {
    assert Lower("Allow-Events") == "allow-events" && Lower("Content-Length") == "content-length";
  }

  lemma ContentTypeKeyed()
    ensures SelfKeyed("Content-Type") && SelfKeyed("Max-Forwards")
  {
    assert Lower("Content-Type") == "content-type" && Lower("Max-Forwards") == "max-forwards";
  }

  lemma AcceptEncodingKeyed()
    ensures SelfKeyed("Accept-Encoding")
  {
    assert Lower("Accept-Encoding") == "accept-encoding";
  }

  lemma AcceptLanguageKeyed()
    ensures SelfKeyed("Accept-Language")
  {
    assert Lower("Accept-Language") == "accept-language";
  }

  lemma RecordRouteKeyed()
    ensures SelfKeyed("Record-Route") && SelfKeyed("Retry-After")
  {
    assert Lower("Record-Route") == "record-route" && Lower("Retry-After") == "retry-after";
  }

  lemma UserAgentKeyed()
    ensures SelfKeyed("In-Reply-To") && SelfKeyed("User-Agent")
  {
    assert Lower("In-Reply-To") == "in-reply-to" && Lower("User-Agent") == "user-agent";
  }

  lemma RequestDispositionKeyed()
    ensures SelfKeyed("Request-Disposition")
  {
    assert Lower("Request-Disposition") == "request-disposition";
  }

  lemma RejectContactKeyed()
    ensures SelfKeyed("Reject-Contact") && SelfKeyed("Identity-Info")
  {
    assert Lower("Reject-Contact") == "reject-contact" && Lower("Identity-Info") == "identity-info";
  }

  lemma TargetDialogKeyed()
    ensures SelfKeyed("Target-Dialog")
  {
    assert Lower("Target-Dialog") == "target-dialog";
  }

  /** A name that the table reaches only from a compact form is its own capitalisation. */
  predicate SelfTitled(name: string) {
    Trimmed(name) && LongForm(Lower(name)).None? && TitleCase(name) == name
  }

  lemma AddressNamesTitled()
    ensures SelfTitled("From") && SelfTitled("To") && SelfTitled("Via")
  {
    assert Lower("From") == "from" && Lower("To") == "to" && Lower("Via") == "via";
    assert "from"[0] != "cseq"[0];
    assert TitleCase("From") == "From" && TitleCase("To") == "To" && TitleCase("Via") == "Via";
  }

  lemma ContactTitled()
    ensures SelfTitled("Contact")
  {
    assert Lower("Contact") == "contact";
    assert "contact"[1] != "call-id"[1];
    assert TitleCase("Contact") == "Contact";
  }

  lemma SupportedTitled()
    ensures SelfTitled("Supported")
  {
    assert Lower("Supported") == "supported";
    assert TitleCase("Supported") == "Supported";
  }

  lemma SubjectTitled()
    ensures SelfTitled("Subject") && SelfTitled("Event")
  {
    assert Lower("Subject") == "subject" && Lower("Event") == "event";
    assert "subject"[0] != "call-id"[0];
    assert TitleCase("Subject") == "Subject" && TitleCase("Event") == "Event";
  }

  lemma IdentityTitled()
    ensures SelfTitled("Identity")
  {
    assert Lower("Identity") == "identity";
    assert "identity"[0] != "refer-to"[0];
    assert TitleCase("Identity") == "Identity";
  }

  lemma EncodingTitled()
    ensures TitleCase("Content-Encoding") == "Content-Encoding"
  {
    var name := "Content-Encoding";
    forall i | 0 <= i < |name| ensures TitleCase(name)[i] == name[i] {
    }
  }

  lemma EncodingLower()
    ensures Lower("Content-Encoding") == "content-encoding"
  {
  }

  lemma ContentEncodingTitled()
    ensures SelfTitled("Content-Encoding")
  {
    hide Lower, TitleCase;
    EncodingLower();
    EncodingTitled();
    assert "content-encoding"[0] != "www-authenticate"[0];
  }

  /** Every long name in the table is canonical. */
  lemma TableIsFixed(key: string)
    requires LongForm(key).Some?
    ensures SelfKeyed(LongForm(key).value) || SelfTitled(LongForm(key).value)
  {
    WwwAuthenticateKeyed();
    ProxyAuthenticateKeyed();
    ProxyAuthorizationKeyed();
    AssertedIdentityKeyed();
    ShortNamesKeyed();
    SessionExpiresKeyed();
    AcceptContactKeyed();
    ContentLengthKeyed();
    ContentTypeKeyed();
    AcceptEncodingKeyed();
    AcceptLanguageKeyed();
    RecordRouteKeyed();
    UserAgentKeyed();
    RequestDispositionKeyed();
    RejectContactKeyed();
    TargetDialogKeyed();
    AddressNamesTitled();
    ContactTitled();
    SupportedTitled();
    SubjectTitled();
    IdentityTitled();
    ContentEncodingTitled();
    hide SelfKeyed, SelfTitled;
  }

  lemma KeyedNames()
    ensures SelfKeyed("CSeq") && SelfKeyed("Call-ID") && SelfKeyed("Max-Forwards") && SelfKeyed("Record-Route")
  {
    ShortNamesKeyed();
    ContentTypeKeyed();
    RecordRouteKeyed();
  }

  lemma LengthKeyed()
    ensures SelfKeyed("Content-Length") && SelfKeyed("Content-Type")
  {
    ContentLengthKeyed();
    ContentTypeKeyed();
  }

  lemma SelfIsCanonical(name: string)
    requires SelfKeyed(name) || SelfTitled(name)
    ensures Canonical(name) == name
  {
    hide LongForm;
  }

  lemma TrimIsTrimmed(s: string)
    ensures Trimmed(TrimSpace(s))
  {
    hide TrimLeft, TrimRight, IsSpace;
    var l, r := TrimLeft(s), TrimSpace(s);
    assert r != "" ==> r[0] == l[0];
  }

  lemma TitleKeepsTrimmed(s: string)
    requires Trimmed(s)
    ensures Trimmed(TitleCase(s))
  {
  }

  lemma RouteTitled()
    ensures SelfTitled("Route")
  {
    assert Lower("Route") == "route";
    assert TitleCase("Route") == "Route";
  }

  /** A compact name stands for its long form. */
  lemma CompactCanonical(c: char)
    requires 'a' <= c <= 'z' && CompactForm(c).Some?
    ensures Canonical([c]) == CompactForm(c).value
  {
    assert TrimSpace([c]) == [c] && Lower([c]) == [c];
  }

  /** The compact names of the SIP standards, letter by letter. */
  lemma CompactNames()
    ensures Canonical("i") == "Call-ID" && Canonical("f") == "From" && Canonical("t") == "To" && Canonical("v") == "Via"
    ensures Canonical("m") == "Contact" && Canonical("c") == "Content-Type" && Canonical("l") == "Content-Length"
    ensures Canonical("k") == "Supported" && Canonical("s") == "Subject" && Canonical("r") == "Refer-To"
    ensures Canonical("u") == "Allow-Events" && Canonical("e") == "Content-Encoding" && Canonical("j") == "Reject-Contact"
    ensures Canonical("d") == "Request-Disposition" && Canonical("a") == "Accept-Contact"
    ensures Canonical("x") == "Session-Expires" && Canonical("y") == "Identity" && Canonical("n") == "Identity-Info"
    ensures Canonical("o") == "Event" && Canonical("b") == "Referred-By" && Canonical("q") == "Target-Dialog"
  {
    hide Canonical;
    CompactCanonical('i');
    CompactCanonical('f');
    CompactCanonical('t');
    CompactCanonical('v');
    CompactCanonical('m');
    CompactCanonical('c');
    CompactCanonical('l');
    CompactCanonical('k');
    CompactCanonical('s');
    CompactCanonical('r');
    CompactCanonical('u');
    CompactCanonical('e');
    CompactCanonical('j');
    CompactCanonical('d');
    CompactCanonical('a');
    CompactCanonical('x');
    CompactCanonical('y');
    CompactCanonical('n');
    CompactCanonical('o');
    CompactCanonical('b');
    CompactCanonical('q');
  }

  lemma CanonicalIsIdempotent(name: string)
    ensures Canonical(Canonical(name)) == Canonical(name)
  {
    hide LongForm, Lower, TitleCase, TrimSpace, SelfKeyed, SelfTitled;
    var trimmed := TrimSpace(name);
    var lower := Lower(trimmed);
    if LongForm(lower).Some? {
      TableIsFixed(lower);
      SelfIsCanonical(LongForm(lower).value);
    } else {
      TitleFold(trimmed);
      TrimIsTrimmed(name);
      TitleKeepsTrimmed(trimmed);
      TrimTrimmed(TitleCase(trimmed));
    }
  }

  lemma ContentLengthKeys(key: string)
    ensures LongForm(key) == Some("Content-Length") <==> key == "l" || key == "content-length"
  {
    assert "Content-Length"[0] == 'C' && "Reject-Contact"[0] == 'R' && "Accept-Contact"[0] == 'A';
    if |key| == 1 && key[0] == 'l' {
      assert key == "l";
    }
  }

  /** Exactly two spellings, up to case and surrounding space, name the body length. */
  lemma ContentLengthNames(name: string)
    ensures Canonical(name) == "Content-Length" <==>
            Lower(TrimSpace(name)) == "l" || Lower(TrimSpace(name)) == "content-length"
  {
    var trimmed := TrimSpace(name);
    ContentLengthKeys(Lower(trimmed));
    TitleFold(trimmed);
    assert Lower("Content-Length") == "content-length" by {
      ContentLengthKeyed();
      ContentLengthKeys(Lower("Content-Length"));
    }
    hide LongForm;
  }
}
