/** The headers that Respond leaves on a response and that a client transaction puts on its ACK and CANCEL
    (transaction.go, Respond, sendACK and Cancel), name by name. */
module RoutingHeaders {
  import opened Basics
  import opened HeaderNames
  import opened Headers
  import opened Routing

  lemma NamesDiffer()
    ensures Canonical("Via") == "Via" && Canonical("From") == "From" && Canonical("To") == "To"
    ensures Canonical("CSeq") == "CSeq" && Canonical("Call-ID") == "Call-ID" && Canonical("Route") == "Route"
    ensures Canonical("Max-Forwards") == "Max-Forwards" && Canonical("Record-Route") == "Record-Route"
    ensures "CSeq" != "From" && "Via" != "From" && "To" != "From"
  {
    hide Canonical, SelfTitled;
    RoutingNames();
    RouteTitled();
    SelfIsCanonical("Route");
  }

  // ------------------------------------------------------------------ one edit at a time

  lemma AllOfOne(h: Header, name: string)
    ensures All([h], name) == if Named(h, name) then [h] else []
  {
    hide Named;
    assert [h][..0] == [];
  }

  lemma {:induction false} AllAreNamed(list: seq<Header>, name: string)
    ensures forall h :: h in All(list, name) ==> Named(h, name)
  {
    hide Named;
    if list != [] {
      AllAreNamed(list[..|list| - 1], name);
    }
  }

  lemma {:induction false} AllOfNamed(list: seq<Header>, name: string, other: string)
    requires forall h :: h in list ==> Named(h, name)
    ensures All(list, other) == if Canonical(other) == Canonical(name) then list else []
  {
    hide Canonical;
    if list != [] {
      var n := |list| - 1;
      assert list[n] in list && list == list[..n] + [list[n]];
      AllOfNamed(list[..n], name, other);
    }
  }

  lemma GotIsNamed(list: seq<Header>, name: string)
    requires Get(list, name).Some?
    ensures Named(Get(list, name).value, name)
  {
    hide Named;
    GetIsFirst(list, name);
    AllAreNamed(list, name);
    assert All(list, name)[0] in All(list, name);
  }

  lemma AddMissingAll(headers: seq<Header>, from: seq<Header>, name: string, other: string)
    ensures Canonical(other) != Canonical(name) ==> All(AddMissing(headers, from, name), other) == All(headers, other)
    ensures All(AddMissing(headers, from, name), name) ==
            if All(headers, name) != [] || Get(from, name).None? then All(headers, name) else [Get(from, name).value]
  {
    hide Canonical, All, Get;
    GetIsFirst(headers, name);
    if Get(from, name).Some? {
      var h := Get(from, name).value;
      GotIsNamed(from, name);
      AllConcat(headers, [h], name);
      AllConcat(headers, [h], other);
      AllOfOne(h, name);
      AllOfOne(h, other);
    }
  }

  // ------------------------------------------------------------------ the response

  lemma StampVia(resp: seq<Header>, req: seq<Header>, parse: ViaParser, name: string)
    requires ViaBranch(req, parse).Some? && CSeqOf(req).Some?
    ensures var h := [ViaClone(req, parse).value] + Replace(resp, CSeqOf(req).value);
            All(h, name) ==
              if Canonical(name) == "Via" then [ViaClone(req, parse).value] + All(resp, name)
              else if Canonical(name) == "CSeq" then [CSeqOf(req).value]
              else All(resp, name)
  {
    hide Canonical, All, Get, Replace;
    NamesDiffer();
    CSeqOfIsCSeq(req);
    var via, cseq := ViaClone(req, parse).value, CSeqOf(req).value;
    AllConcat([via], Replace(resp, cseq), name);
    AllOfOne(via, name);
    if Canonical(name) == "CSeq" {
      ReplaceRefinesMultimap(resp, cseq);
      SameName(Replace(resp, cseq), name, "CSeq");
    } else {
      GetOtherAfterReplace(resp, cseq, name);
    }
  }

  lemma {:induction false} SameName(list: seq<Header>, name: string, other: string)
    requires Canonical(name) == Canonical(other)
    ensures All(list, name) == All(list, other)
  {
    hide Canonical;
    if list != [] {
      SameName(list[..|list| - 1], name, other);
    }
  }

  /** Whatever headers the response already holds: after Respond it has the request's Via in front of its own, exactly
      the request's CSeq, its own From, To, Call-ID and Record-Route where it had one and the request's where not, and
      every other header as before. */
  lemma StampedHeaders(resp: seq<Header>, req: seq<Header>, parse: ViaParser, name: string)
    requires ViaBranch(req, parse).Some? && CSeqOf(req).Some?
    ensures var out := Stamp(resp, req, parse);
            && All(out, "Via") == [ViaClone(req, parse).value] + All(resp, "Via")
            && All(out, "CSeq") == [CSeqOf(req).value]
            && All(out, "From") ==
               (if All(resp, "From") != [] || Get(req, "From").None? then All(resp, "From") else [Get(req, "From").value])
            && All(out, "To") ==
               (if All(resp, "To") != [] || Get(req, "To").None? then All(resp, "To") else [Get(req, "To").value])
            && All(out, "Call-ID") ==
               (if All(resp, "Call-ID") != [] then All(resp, "Call-ID") else [Generic("Call-ID", CallId(req))])
            && All(out, "Record-Route") ==
               (if All(resp, "Record-Route") != [] then All(resp, "Record-Route") else All(req, "Record-Route"))
            && (Canonical(name) !in {"Via", "CSeq", "From", "To", "Call-ID", "Record-Route"} ==> All(out, name) == All(resp, name))
  {
    hide Canonical, All, Get, Replace, AddMissing, Stamp;
    NamesDiffer();
    StampedAll(resp, req, parse, "Via");
    StampedAll(resp, req, parse, "CSeq");
    StampedAll(resp, req, parse, "From");
    StampedAll(resp, req, parse, "To");
    StampedAll(resp, req, parse, "Call-ID");
    StampedAll(resp, req, parse, "Record-Route");
    StampedAll(resp, req, parse, name);
  }

  /** The headers of one name after the edits of Respond, given by its canonical form. */
  function Stamped(resp: seq<Header>, req: seq<Header>, parse: ViaParser, name: string): seq<Header>
    requires ViaBranch(req, parse).Some? && CSeqOf(req).Some?
  {
    var own := All(resp, name);
    if Canonical(name) == "Via" then [ViaClone(req, parse).value] + own
    else if Canonical(name) == "CSeq" then [CSeqOf(req).value]
    else if Canonical(name) == "From" || Canonical(name) == "To" then
      if own != [] || Get(req, Canonical(name)).None? then own else [Get(req, Canonical(name)).value]
    else if Canonical(name) == "Call-ID" then if own != [] then own else [Generic("Call-ID", CallId(req))]
    else if Canonical(name) == "Record-Route" then if own != [] then own else All(req, "Record-Route")
    else own
  }

  lemma StampedAll(resp: seq<Header>, req: seq<Header>, parse: ViaParser, name: string)
    requires ViaBranch(req, parse).Some? && CSeqOf(req).Some?
    ensures All(Stamp(resp, req, parse), name) == Stamped(resp, req, parse, name)
  {
    hide Canonical, All, Get, Replace, AddMissing;
    NamesDiffer();
    CanonicalIsIdempotent(name);
    var h2 := [ViaClone(req, parse).value] + Replace(resp, CSeqOf(req).value);
    StampVia(resp, req, parse, name);
    SameName(h2, name, Canonical(name));
    SameName(resp, name, Canonical(name));
    var h3' := AddMissing(h2, req, "From");
    AddMissingAll(h2, req, "From", name);
    SameName(h3', name, Canonical(name));
    var h3 := AddMissing(h3', req, "To");
    AddMissingAll(h3', req, "To", name);
    SameName(h3, name, Canonical(name));
    FillCallId(h3, CallId(req), name);
    var h4 := if Get(h3, "Call-ID").None? then Replace(h3, Generic("Call-ID", CallId(req))) else h3;
    SameName(h4, name, Canonical(name));
    FillRoutes(h4, req, name);
  }

  lemma FillCallId(headers: seq<Header>, id: string, name: string)
    ensures var h := Generic("Call-ID", id);
            var out := if Get(headers, "Call-ID").None? then Replace(headers, h) else headers;
            All(out, name) ==
              if Canonical(name) == "Call-ID" && All(headers, name) == [] then [h] else All(headers, name)
  {
    hide Canonical, All, Get, Replace;
    NamesDiffer();
    var h := Generic("Call-ID", id);
    GetIsFirst(headers, "Call-ID");
    if Canonical(name) == "Call-ID" {
      SameName(headers, name, "Call-ID");
      ReplaceRefinesMultimap(headers, h);
      SameName(Replace(headers, h), name, "Call-ID");
    } else {
      GetOtherAfterReplace(headers, h, name);
    }
  }

  lemma FillRoutes(headers: seq<Header>, req: seq<Header>, name: string)
    ensures var out := if All(headers, "Record-Route") == [] then headers + All(req, "Record-Route") else headers;
            All(out, name) ==
              if Canonical(name) == "Record-Route" && All(headers, name) == [] then All(req, "Record-Route") else All(headers, name)
  {
    hide Canonical, All;
    NamesDiffer();
    var routes := All(req, "Record-Route");
    AllAreNamed(req, "Record-Route");
    AllOfNamed(routes, "Record-Route", name);
    AllConcat(headers, routes, name);
    if Canonical(name) == "Record-Route" {
      SameName(headers, name, "Record-Route");
    }
  }

  // ------------------------------------------------------------------ ACK and CANCEL

  lemma ViaIsNamed(req: seq<Header>, parse: ViaParser)
    requires ViaBranch(req, parse).Some?
    ensures Named(ViaClone(req, parse).value, "Via")
  {
    hide Canonical, Get;
  }

  /** What Follow puts together before the last three headers. */
  lemma AddressedAll(req: seq<Header>, to: seq<Header>, routes: seq<Header>, parse: ViaParser, name: string)
    requires ViaBranch(req, parse).Some? && (forall h :: h in routes ==> Named(h, "Route"))
    ensures All(Addressing(req, to, routes, parse), name) ==
            if Canonical(name) == "Via" then [ViaClone(req, parse).value]
            else if Canonical(name) == "Route" then routes
            else if Canonical(name) == "From" then (if Get(req, "From").Some? then [Get(req, "From").value] else [])
            else if Canonical(name) == "To" then (if Get(to, "To").Some? then [Get(to, "To").value] else [])
            else []
  {
    hide Canonical, All, Get, Named;
    NamesDiffer();
    var via := [ViaClone(req, parse).value];
    ViaIsNamed(req, parse);
    var from := if Get(req, "From").Some? then [Get(req, "From").value] else [];
    var target := if Get(to, "To").Some? then [Get(to, "To").value] else [];
    if Get(req, "From").Some? {
      GotIsNamed(req, "From");
    }
    if Get(to, "To").Some? {
      GotIsNamed(to, "To");
    }
    AllOfNamed(via, "Via", name);
    AllOfNamed(routes, "Route", name);
    AllOfNamed(from, "From", name);
    AllOfNamed(target, "To", name);
    AllConcat(via, routes + from + target, name);
    AllConcat(routes + from, target, name);
    AllConcat(routes, from, name);
    assert Addressing(req, to, routes, parse) == via + (routes + from + target);
  }

  /** The headers of what a client transaction sends after its request: the request's Via alone, the given routes, the
      request's From, the To of the given message, the request's Call-ID, its CSeq number under the new method, and 70
      hops; and nothing else. */
  lemma FollowHeaders(req: seq<Header>, to: seq<Header>, routes: seq<Header>, verb: string, parse: ViaParser, name: string)
    requires ViaBranch(req, parse).Some? && CSeqOf(req).Some? && (forall h :: h in routes ==> Named(h, "Route"))
    ensures var out := Follow(req, to, routes, verb, parse);
            All(out, name) ==
              if Canonical(name) == "Call-ID" then [Generic("Call-ID", CallId(req))]
              else if Canonical(name) == "CSeq" then [CSeq(CSeqOf(req).value.number, verb)]
              else if Canonical(name) == "Max-Forwards" then [MaxForwards(70)]
              else if Canonical(name) == "Via" then [ViaClone(req, parse).value]
              else if Canonical(name) == "Route" then routes
              else if Canonical(name) == "From" then (if Get(req, "From").Some? then [Get(req, "From").value] else [])
              else if Canonical(name) == "To" then (if Get(to, "To").Some? then [Get(to, "To").value] else [])
              else []
  {
    hide Canonical, All, Get, Replace, Addressing;
    NamesDiffer();
    CSeqOfIsCSeq(req);
    AddressedAll(req, to, routes, parse, name);
    var h0, id := Addressing(req, to, routes, parse), Generic("Call-ID", CallId(req));
    var h1, cseq := Replace(h0, id), CSeq(CSeqOf(req).value.number, verb);
    var h2 := Replace(h1, cseq);
    ReplacedAll(h0, id, name);
    ReplacedAll(h1, cseq, name);
    ReplacedAll(h2, MaxForwards(70), name);
  }

  lemma ReplacedAll(headers: seq<Header>, h: Header, name: string)
    ensures All(Replace(headers, h), name) == if Canonical(name) == Canonical(h.Name()) then [h] else All(headers, name)
  {
    hide Canonical, All, Replace;
    if Canonical(name) == Canonical(h.Name()) {
      ReplaceRefinesMultimap(headers, h);
      SameName(Replace(headers, h), name, h.Name());
    } else {
      GetOtherAfterReplace(headers, h, name);
    }
  }

  /** An ACK is addressed with the To of the response and the route set of the request, a CANCEL with the To of the
      request and no route. */
  lemma AckAndCancelHeaders(req: seq<Header>, resp: seq<Header>, parse: ViaParser)
    requires ViaBranch(req, parse).Some? && CSeqOf(req).Some?
    ensures var ack, cancel := AckOf(req, resp, parse), CancelOf(req, parse);
            && All(ack, "To") == (if Get(resp, "To").Some? then [Get(resp, "To").value] else [])
            && All(cancel, "To") == (if Get(req, "To").Some? then [Get(req, "To").value] else [])
            && All(ack, "From") == All(cancel, "From") == (if Get(req, "From").Some? then [Get(req, "From").value] else [])
            && All(ack, "Route") == All(req, "Route") && All(cancel, "Route") == []
            && All(ack, "CSeq") == [CSeq(CSeqOf(req).value.number, "ACK")]
            && All(cancel, "CSeq") == [CSeq(CSeqOf(req).value.number, "CANCEL")]
            && All(ack, "Call-ID") == All(cancel, "Call-ID") == [Generic("Call-ID", CallId(req))]
            && All(ack, "Max-Forwards") == All(cancel, "Max-Forwards") == [MaxForwards(70)]
            && All(ack, "Via") == All(cancel, "Via") == [ViaClone(req, parse).value]
  {
    hide Canonical, All, Get, Follow, Named;
    NamesDiffer();
    AllAreNamed(req, "Route");
    AckPart(req, resp, parse, "To");
    AckPart(req, resp, parse, "From");
    AckPart(req, resp, parse, "Route");
    AckPart(req, resp, parse, "CSeq");
    AckPart(req, resp, parse, "Call-ID");
    AckPart(req, resp, parse, "Max-Forwards");
    AckPart(req, resp, parse, "Via");
  }

  lemma AckPart(req: seq<Header>, resp: seq<Header>, parse: ViaParser, name: string)
    requires ViaBranch(req, parse).Some? && CSeqOf(req).Some? && Canonical(name) == name
    ensures var ack, cancel := AckOf(req, resp, parse), CancelOf(req, parse);
            && (name == "Call-ID" ==> All(ack, name) == All(cancel, name) == [Generic("Call-ID", CallId(req))])
            && (name == "CSeq" ==> All(ack, name) == [CSeq(CSeqOf(req).value.number, "ACK")]
                                   && All(cancel, name) == [CSeq(CSeqOf(req).value.number, "CANCEL")])
            && (name == "Max-Forwards" ==> All(ack, name) == All(cancel, name) == [MaxForwards(70)])
            && (name == "Via" ==> All(ack, name) == All(cancel, name) == [ViaClone(req, parse).value])
            && (name == "Route" ==> All(ack, name) == All(req, "Route") && All(cancel, name) == [])
            && (name == "From" ==>
                  All(ack, name) == All(cancel, name) == (if Get(req, "From").Some? then [Get(req, "From").value] else []))
            && (name == "To" ==>
                  && All(ack, name) == (if Get(resp, "To").Some? then [Get(resp, "To").value] else [])
                  && All(cancel, name) == (if Get(req, "To").Some? then [Get(req, "To").value] else []))
  {
    hide Canonical, All, Get, Follow, Named;
    NamesDiffer();
    AllAreNamed(req, "Route");
    FollowHeaders(req, resp, All(req, "Route"), "ACK", parse, name);
    FollowHeaders(req, req, [], "CANCEL", parse, name);
  }
}
