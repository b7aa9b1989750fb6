/** Print and parse of the typed header values CSeq, Content-Length and Max-Forwards (headers.go). */
module HeaderValues {
  import opened Basics
  import opened Text
  import opened Headers

  function ParseCSeq(s: string): Option<Header> {
    var fields := Fields(s);
    if |fields| != 2 then None
    else
      match ParseUint(fields[0], 10, UINT32_BOUND)
      case None => None
      case Some(n) => Some(CSeq(n, Upper(fields[1])))
  }

  function ParseContentLength(s: string): Option<Header> {
    match ParseUint(TrimSpace(s), 10, UINT32_BOUND)
    case None => None
    case Some(n) => Some(ContentLength(n))
  }

  function ParseMaxForwards(s: string): Option<Header> {
    match Atoi(s)
    case None => None
    case Some(n) => Some(MaxForwards(n))
  }

  /** A typed header whose fields are in the range of their Go types. */
  predicate InRange(h: Header) {
    match h
    case CSeq(n, m) => n < UINT32_BOUND && m != "" && SpaceFree(m) && Upper(m) == m
    case ContentLength(n) => n < UINT32_BOUND
    case MaxForwards(n) => -INT_BOUND <= n < INT_BOUND
    case _ => true
  }

  lemma CSeqRoundTrip(n: nat, m: string)
    requires InRange(CSeq(n, m))
    ensures ParseCSeq(CSeq(n, m).Value()) == Some(CSeq(n, m))
  {
    ParseUintNumeral(n, UINT32_BOUND);
    FieldsCons(Numeral(n, 10), m);
    FieldsWord(m);
  }

  lemma ContentLengthRoundTrip(n: nat)
    requires n < UINT32_BOUND
    ensures ParseContentLength(ContentLength(n).Value()) == Some(ContentLength(n))
  {
    ParseUintNumeral(n, UINT32_BOUND);
    TrimFree(Numeral(n, 10));
  }

  lemma MaxForwardsRoundTrip(n: int)
    requires InRange(MaxForwards(n))
    ensures ParseMaxForwards(MaxForwards(n).Value()) == Some(MaxForwards(n))
  {
    AtoiItoa(n);
  }
}
