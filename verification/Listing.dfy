/** Listing all scopes: one unreadable scope does not hide the others. */
module Listing {
  import opened Common
  import opened Addresses
  import opened ScopeModel
  import opened Server
  import opened Reading
  import opened WindowsServer

  ghost predicate ByAddress(scopes: seq<Payload>) {
    forall i, j :: 0 <= i < j < |scopes| ==> scopes[i].scope < scopes[j].scope
  }

  /** Putting a payload in its place among those sorted so far. */
  method InsertByAddress(scopes: seq<Payload>, p: Payload) returns (out: seq<Payload>)
    requires ByAddress(scopes) && forall q :: q in scopes ==> q.scope != p.scope
    ensures ByAddress(out) && forall q :: q in out <==> q in scopes || q == p
  {
    var i := 0;
    while i < |scopes| && scopes[i].scope < p.scope
      invariant i <= |scopes|
      invariant forall k :: 0 <= k < i ==> scopes[k].scope < p.scope
    {
      i := i + 1;
    }
    out := scopes[..i] + [p] + scopes[i..];
    assert forall q :: q in scopes <==> q in scopes[..i] || q in scopes[i..];
    forall k | i <= k < |scopes|
      ensures p.scope < scopes[k].scope
    {
      assert scopes[k] in scopes;
    }
  }

  /** `list_scopes`: what is listed is exactly what GET would return for each scope, in address
      order and once each; what is reported as an error is exactly what GET would refuse. */
  method ListScopes(server: DhcpServer) returns (scopes: seq<Payload>, errors: set<Ip>)
    requires OneRelationshipEach(server.rels)
    ensures ByAddress(scopes)
    ensures forall p :: p in scopes <==> Read(server.Contents(), p.scope) == Found(p)
    ensures forall s :: s in errors <==> Read(server.Contents(), s).Unreadable?
    ensures forall s :: s in server.scopes <==> s in errors || exists p :: p in scopes && p.scope == s
  {
    scopes, errors := [], {};
    var todo := server.scopes.Keys;
    while todo != {}
      invariant todo <= server.scopes.Keys
      invariant ByAddress(scopes)
      invariant forall p :: p in scopes <==> p.scope !in todo && Read(server.Contents(), p.scope) == Found(p)
      invariant forall s :: s in errors <==> s !in todo && Read(server.Contents(), s).Unreadable?
      decreases |todo|
    {
      var s :| s in todo;
      var state := server.ScopeState(s);
      ReadNamesItsScope(server.Contents(), s);
      match state {
        case Found(p) => scopes := InsertByAddress(scopes, p);
        case _ => errors := errors + {s};
      }
      todo := todo - {s};
    }
    forall s | s in server.scopes && s !in errors
      ensures exists p :: p in scopes && p.scope == s
    {
      ReadNamesItsScope(server.Contents(), s);
      assert Read(server.Contents(), s).payload in scopes;
    }
  }

  lemma ReadNamesItsScope(sv: State, s: Ip)
    ensures Read(sv, s).Missing? <==> s !in sv.scopes
    ensures Read(sv, s).Found? ==> Read(sv, s).payload.scope == s
  {
  }
}
