/** Transaction keys, and the messages built to match them (transaction.go: the key functions, Respond,
    sendACK, Cancel, and the lookups of handleRequest and handleResponse). */
module Routing {
  import opened Basics
  import opened Text
  import opened HeaderNames
  import opened Headers
  import opened HeaderValues

  /** ParseVia applied to the text of an untyped Via: its branch, or none when it does not parse. */
  type ViaParser = string -> Option<string>

  /** Request.Via and Response.Via, as far as the branch goes. */
  function ViaBranch(headers: seq<Header>, parse: ViaParser): Option<string> {
    match Get(headers, "Via")
    case Some(Typed(_, _, branch)) => Some(branch)
    case Some(Generic(_, text)) => parse(text)
    case _ => None
  }

  function CSeqOf(headers: seq<Header>): Option<Header> {
    match Get(headers, "CSeq")
    case Some(CSeq(n, m)) => Some(CSeq(n, m))
    case Some(Generic(_, text)) => ParseCSeq(text)
    case _ => None
  }

  function Verb(headers: seq<Header>): string {
    match CSeqOf(headers)
    case Some(CSeq(_, m)) => m
    case _ => ""
  }

  function Key(side: char, branch: string, verb: string): string { [side, '|'] + branch + ['|'] + verb }

  function BranchOrEmpty(headers: seq<Header>, parse: ViaParser): string {
    match ViaBranch(headers, parse) case Some(b) => b case None => ""
  }

  function ServerTxKey(req: seq<Header>, parse: ViaParser): string { Key('S', BranchOrEmpty(req, parse), Verb(req)) }

  function ClientTxKey(req: seq<Header>, parse: ViaParser): string { Key('C', BranchOrEmpty(req, parse), Verb(req)) }

  function ClientTxKeyOf(resp: seq<Header>, parse: ViaParser): string {
    match ViaBranch(resp, parse)
    case None => ""
    case Some(branch) => Key('C', branch, Verb(resp))
  }

  /** The key under which handleRequest looks for the INVITE that an ACK or CANCEL belongs to. */
  function InviteKeyOf(req: seq<Header>, parse: ViaParser): string { Key('S', BranchOrEmpty(req, parse), "INVITE") }

  // ------------------------------------------------------------------ keys identify transactions

  /** Equal keys mean the same side, branch and method, when methods contain no '|'. */
  lemma KeyInjective(side: char, branch: string, verb: string, side': char, branch': string, verb': string)
    requires '|' !in verb && '|' !in verb'
    requires Key(side, branch, verb) == Key(side', branch', verb')
    ensures side == side' && branch == branch' && verb == verb'
  {
    var head, head' := [side, '|'] + branch, [side', '|'] + branch';
    var key := Key(side, branch, verb);
    assert key == head + ['|'] + verb == head' + ['|'] + verb';
    LastIndexAt(head, '|', verb);
    LastIndexAt(head', '|', verb');
    assert head == key[..|head|] == key[..|head'|] == head';
    assert verb == key[|head| + 1..] == verb';
    assert side == head[0] && branch == head[2..];
    assert side' == head'[0] && branch' == head'[2..];
  }

  /** The first method ends in a bar and the second one. */
  ghost predicate EndsIn(verb: string, verb': string) { exists head :: verb == head + ['|'] + verb' }

  /** The part of the first method before the second is at the end of the second branch instead. */
  ghost predicate Shifted(branch: string, verb: string, branch': string, verb': string) {
    exists head :: verb == head + ['|'] + verb' && branch' == branch + ['|'] + head
  }

  /** Moving the bar between branch and method does not change a key. */
  lemma KeyShift(side: char, branch: string, head: string, verb: string)
    ensures Key(side, branch, head + ['|'] + verb) == Key(side, branch + ['|'] + head, verb)
  {
  }

  lemma LongerVerb(branch: string, verb: string, branch': string, verb': string)
    requires branch + ['|'] + verb == branch' + ['|'] + verb' && |verb| > |verb'|
    ensures Shifted(branch, verb, branch', verb')
  {
    var text := branch + ['|'] + verb;
    var head := verb[..|verb| - |verb'| - 1];
    assert text == branch' + ['|'] + verb';
    assert verb == text[|branch| + 1..] && verb' == text[|branch'| + 1..];
    assert branch' == text[..|branch'|] == branch + ['|'] + head;
    assert verb == head + [text[|branch'|]] + verb';
  }

  /** Two keys are equal exactly when they name the same transaction, or one method ends in a bar and the other and
      the branches make up for it. */
  lemma KeysEqualExactlyWhen(side: char, branch: string, verb: string, side': char, branch': string, verb': string)
    ensures Key(side, branch, verb) == Key(side', branch', verb') <==>
            && side == side'
            && (|| (branch == branch' && verb == verb')
                || Shifted(branch, verb, branch', verb')
                || Shifted(branch', verb', branch, verb))
  {
    var a, b := branch + ['|'] + verb, branch' + ['|'] + verb';
    assert Key(side, branch, verb) == [side, '|'] + a && Key(side', branch', verb') == [side', '|'] + b;
    if Key(side, branch, verb) == Key(side', branch', verb') {
      assert side == Key(side, branch, verb)[0] == side';
      assert a == Key(side, branch, verb)[2..] == b;
      if |verb| > |verb'| {
        LongerVerb(branch, verb, branch', verb');
      } else if |verb'| > |verb| {
        LongerVerb(branch', verb', branch, verb);
      } else {
        assert branch == a[..|branch|] == b[..|branch|] == branch';
        assert verb == a[|branch| + 1..] == verb';
      }
    }
    if head :| verb == head + ['|'] + verb' && branch' == branch + ['|'] + head {
      KeyShift(side, branch, head, verb');
    }
    if head :| verb' == head + ['|'] + verb && branch == branch' + ['|'] + head {
      KeyShift(side, branch', head, verb);
    }
  }

  /** Some two transactions with these methods share a key. */
  ghost predicate CanCollide(side: char, verb: string, verb': string) {
    exists branch, branch' :: Key(side, branch, verb) == Key(side, branch', verb')
  }

  /** Different methods can share a key exactly when one ends in a bar and the other. */
  lemma CollideExactlyWhen(side: char, verb: string, verb': string)
    requires verb != verb'
    ensures CanCollide(side, verb, verb') <==> EndsIn(verb, verb') || EndsIn(verb', verb)
  {
    hide Key;
    if branch, branch' :| Key(side, branch, verb) == Key(side, branch', verb') {
      KeysEqualExactlyWhen(side, branch, verb, side, branch', verb');
    }
    if head :| verb == head + ['|'] + verb' {
      KeyShift(side, "", head, verb');
    }
    if head :| verb' == head + ['|'] + verb {
      KeyShift(side, "", head, verb);
    }
  }

  // ------------------------------------------------------------------ Respond

  /** A copy of the request's top Via. */
  function ViaClone(req: seq<Header>, parse: ViaParser): Option<Header> {
    match ViaBranch(req, parse)
    case None => None
    case Some(branch) => Some(Typed("Via", Get(req, "Via").value.Value(), branch))
  }

  function AddMissing(headers: seq<Header>, from: seq<Header>, name: string): seq<Header> {
    var h := Get(from, name);
    if h.Some? && Get(headers, name).None? then headers + [h.value] else headers
  }

  function CallId(headers: seq<Header>): string {
    match Get(headers, "Call-ID") case Some(h) => h.Value() case None => ""
  }

  /** The header edits that Respond makes on the response it is given. */
  function Stamp(resp: seq<Header>, req: seq<Header>, parse: ViaParser): seq<Header> {
    var cseq := CSeqOf(req);
    var h1 := if cseq.Some? then Replace(resp, cseq.value) else resp;
    var via := ViaClone(req, parse);
    var h2 := if via.Some? then [via.value] + h1 else h1;
    var h3 := AddMissing(AddMissing(h2, req, "From"), req, "To");
    var h4 := if Get(h3, "Call-ID").None? then Replace(h3, Generic("Call-ID", CallId(req))) else h3;
    if All(h4, "Record-Route") == [] then h4 + All(req, "Record-Route") else h4
  }

  /** The names that routing looks at are pairwise different after canonicalisation. */
  lemma RoutingNames()
    ensures Canonical("Via") == "Via" && Canonical("From") == "From" && Canonical("To") == "To"
    ensures Canonical("CSeq") == "CSeq" && Canonical("Call-ID") == "Call-ID"
    ensures Canonical("Max-Forwards") == "Max-Forwards" && Canonical("Record-Route") == "Record-Route"
    ensures "CSeq" != "Via" && "CSeq" != "From" && "CSeq" != "To" && "CSeq" != "Call-ID"
  {
    AddressNamesTitled();
    SelfIsCanonical("Via");
    SelfIsCanonical("From");
    SelfIsCanonical("To");
    KeyedNames();
    SelfIsCanonical("CSeq");
    SelfIsCanonical("Call-ID");
    SelfIsCanonical("Max-Forwards");
    SelfIsCanonical("Record-Route");
    assert "CSeq"[0] != "From"[0];
  }

  lemma CSeqOfIsCSeq(headers: seq<Header>)
    ensures CSeqOf(headers).Some? ==> CSeqOf(headers).value.CSeq?
  {
  }

  /** Appending keeps the first header of a name. */
  lemma {:induction false} GetAfterConcat(a: seq<Header>, b: seq<Header>, name: string)
    requires Get(a, name).Some?
    ensures Get(a + b, name) == Get(a, name)
  {
    hide Named;
    if !Named(a[0], name) {
      GetAfterConcat(a[1..], b, name);
    }
    assert (a + b)[0] == a[0] && (a + b)[1..] == a[1..] + b;
  }

  lemma AddMissingKeeps(headers: seq<Header>, from: seq<Header>, name: string, kept: string)
    requires Get(headers, kept).Some?
    ensures Get(AddMissing(headers, from, name), kept) == Get(headers, kept)
  {
    if Get(from, name).Some? {
      GetAfterConcat(headers, [Get(from, name).value], kept);
    }
  }

  lemma ViaInFront(via: Header, headers: seq<Header>)
    requires via.Typed? && via.Name() == "Via"
    ensures Get([via] + headers, "Via") == Some(via) && Get([via] + headers, "CSeq") == Get(headers, "CSeq")
  {
    hide Canonical;
    RoutingNames();
    assert ([via] + headers)[1..] == headers;
  }

  /** Whatever headers the response already holds, after Respond it carries the request's top Via first and
      the request's CSeq, so that the client finds the transaction that sent the request. */
  lemma RespondRoutesBack(resp: seq<Header>, req: seq<Header>, parse: ViaParser)
    requires ViaBranch(req, parse).Some? && CSeqOf(req).Some?
    ensures ViaBranch(Stamp(resp, req, parse), parse) == ViaBranch(req, parse)
    ensures CSeqOf(Stamp(resp, req, parse)) == CSeqOf(req)
    ensures ClientTxKeyOf(Stamp(resp, req, parse), parse) == ClientTxKey(req, parse)
  {
    hide Canonical, Get, Replace, AddMissing, All;
    RoutingNames();
    CSeqOfIsCSeq(req);
    var cseq, via := CSeqOf(req).value, ViaClone(req, parse).value;
    var h1 := Replace(resp, cseq);
    GetAfterReplace(resp, cseq);
    var h2 := [via] + h1;
    ViaInFront(via, h1);
    AddMissingKeeps(h2, req, "From", "Via");
    AddMissingKeeps(h2, req, "From", "CSeq");
    var h3' := AddMissing(h2, req, "From");
    AddMissingKeeps(h3', req, "To", "Via");
    AddMissingKeeps(h3', req, "To", "CSeq");
    var h3 := AddMissing(h3', req, "To");
    var callId := Generic("Call-ID", CallId(req));
    GetOtherAfterReplace(h3, callId, "Via");
    GetOtherAfterReplace(h3, callId, "CSeq");
    var h4 := if Get(h3, "Call-ID").None? then Replace(h3, callId) else h3;
    GetAfterConcat(h4, All(req, "Record-Route"), "Via");
    GetAfterConcat(h4, All(req, "Record-Route"), "CSeq");
  }

  // ------------------------------------------------------------------ ACK and CANCEL

  /** The headers of the ACK (verb "ACK", To from the response, with the route set) or of the CANCEL
      (verb "CANCEL", To from the request) that a client transaction builds. */
  function Follow(req: seq<Header>, to: seq<Header>, routes: seq<Header>, verb: string, parse: ViaParser): seq<Header> {
    var h := Replace(Addressing(req, to, routes, parse), Generic("Call-ID", CallId(req)));
    var numbered := match CSeqOf(req) case Some(CSeq(n, _)) => Replace(h, CSeq(n, verb)) case _ => h;
    Replace(numbered, MaxForwards(70))
  }

  function Addressing(req: seq<Header>, to: seq<Header>, routes: seq<Header>, parse: ViaParser): seq<Header> {
    var via, from, target := ViaClone(req, parse), Get(req, "From"), Get(to, "To");
    (if via.Some? then [via.value] else []) + (routes
    + (if from.Some? then [from.value] else []) + (if target.Some? then [target.value] else []))
  }

  function AckOf(req: seq<Header>, resp: seq<Header>, parse: ViaParser): seq<Header> {
    Follow(req, resp, All(req, "Route"), "ACK", parse)
  }

  function CancelOf(req: seq<Header>, parse: ViaParser): seq<Header> {
    Follow(req, req, [], "CANCEL", parse)
  }

  /** What a client transaction sends after its INVITE keeps the INVITE's branch under the new method. */
  lemma FollowKeepsBranch(req: seq<Header>, to: seq<Header>, routes: seq<Header>, verb: string, parse: ViaParser)
    requires ViaBranch(req, parse).Some? && CSeqOf(req).Some?
    ensures ViaBranch(Follow(req, to, routes, verb, parse), parse) == ViaBranch(req, parse)
    ensures Verb(Follow(req, to, routes, verb, parse)) == verb
  {
    hide Canonical;
    RoutingNames();
    CSeqOfIsCSeq(req);
    var via, cseq := ViaClone(req, parse).value, CSeq(CSeqOf(req).value.number, verb);
    var h := Addressing(req, to, routes, parse);
    assert Get(h, "Via") == Some(via);
    hide Get, Replace, Addressing;
    var callId := Generic("Call-ID", CallId(req));
    GetOtherAfterReplace(h, callId, "Via");
    var h' := Replace(h, callId);
    GetAfterReplace(h', cseq);
    GetOtherAfterReplace(h', cseq, "Via");
    GetOtherAfterReplace(Replace(h', cseq), MaxForwards(70), "Via");
    GetOtherAfterReplace(Replace(h', cseq), MaxForwards(70), "CSeq");
  }

  lemma CancelKeyIsItsOwn(branch: string)
    ensures Key('S', branch, "CANCEL") != Key('S', branch, "INVITE")
  {
    assert Key('S', branch, "CANCEL")[|branch| + 3] == 'C';
    assert Key('S', branch, "INVITE")[|branch| + 3] == 'I';
  }

  /** The ACK and the CANCEL of an INVITE are looked up under exactly the key its server transaction has,
      and the CANCEL's own transaction has another key. */
  lemma AckAndCancelReachTheInvite(req: seq<Header>, resp: seq<Header>, parse: ViaParser)
    requires ViaBranch(req, parse).Some? && CSeqOf(req).Some? && Verb(req) == "INVITE"
    ensures Verb(AckOf(req, resp, parse)) == "ACK" && Verb(CancelOf(req, parse)) == "CANCEL"
    ensures InviteKeyOf(AckOf(req, resp, parse), parse) == ServerTxKey(req, parse)
    ensures InviteKeyOf(CancelOf(req, parse), parse) == ServerTxKey(req, parse)
    ensures ServerTxKey(CancelOf(req, parse), parse) != ServerTxKey(req, parse)
  {
    FollowKeepsBranch(req, resp, All(req, "Route"), "ACK", parse);
    FollowKeepsBranch(req, req, [], "CANCEL", parse);
    CancelKeyIsItsOwn(BranchOrEmpty(req, parse));
    hide Follow, ViaBranch, Verb, Key;
  }
}
