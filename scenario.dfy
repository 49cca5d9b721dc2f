/** Clients of the handlers that replay one concrete session: a
    registration, a duplicate registration, a profile fetch with the issued
    token, agents staying with their owner, and an agent listing through the
    router, using nothing but the handlers' and the router's contracts. */
module Scenario {
  import opened Json
  import opened Text
  import opened Crypto
  import opened Gate
  import opened Tables
  import opened Http
  import opened Accounts
  import opened Api

  /** The address the scenarios register, before and after lowering. */
  lemma LoweredAddress()
    ensures Lower("A@x.com") == "a@x.com"
  {
    assert Lower("A@x.com")[0] == 'a';
  }

  /** Register A@x.com: 201 with the lowered address and no password. */
  method RegisterFresh(hasher: Hasher, signer: Signer)
    requires HasherSound(hasher) && SignerSound(signer)
  {
    var api := new Backend(hasher, signer, [], [], [], []);
    var body := map["email" := Str("A@x.com"), "password" := Str("secret123")];
    LoweredAddress();
    var r := api.Register(body, Env(1000, "A", false, false));
    assert r.Session? && r.code == 201;
    assert "password" !in r.user && r.user["email"] == Str("a@x.com");
  }

  /** With a@x.com stored, registering A@x.com again answers 409 and leaves
      the table as it was. */
  method RegisterTwice(hasher: Hasher, signer: Signer, u: User)
    requires HasherSound(hasher) && SignerSound(signer) && u.email == "a@x.com"
  {
    var api := new Backend(hasher, signer, [u], [], [], []);
    var body := map["email" := Str("A@x.com"), "password" := Str("secret123")];
    LoweredAddress();
    assert WithEmail(api.users, "a@x.com") == [u];
    var r := api.Register(body, Env(1001, "B", false, false));
    assert r == Failure(409, EmailInUse);
    assert api.users == [u];
  }

  /** A token issued at 1000 passes the gate a minute later bound to its
      user, and `/auth/me` then returns that user; without a header the
      router refuses and nothing changes. */
  method TokenFetchesProfile(hasher: Hasher, signer: Signer, u: User)
    requires HasherSound(hasher) && SignerSound(signer) && u.id == "A"
  {
    var api := new Backend(hasher, signer, [u], [], [], []);
    IssuedTokenAuthenticates(signer, "A", 1000, 1060);
    var gate := Authenticate(Some(BearerPrefix + signer.sign("A", 1000)), VerifierAt(signer, 1060));
    assert gate == Bound("A");
    var r := api.Me(gate.userId, Env(1060, "C", false, false));
    assert r.Profile? && r.user == Public(u);

    MissingHeaderRejected(VerifierAt(signer, 1061));
    var r2 := api.Serve(ListAgentsRequest(None), Env(1061, "D", false, false));
    assert r2 == Failure(401, MissingToken);
  }

  /** A creates an agent whose body names B as owner: it is A's, and B's
      list of agents is empty, not an error. */
  method AgentsStayWithOwner(hasher: Hasher, signer: Signer)
    requires HasherSound(hasher) && SignerSound(signer)
  {
    var api := new Backend(hasher, signer, [], [], [], []);
    var agent := map["name" := Str("bot"), "user_id" := Str("B")];
    var r1 := api.CreateAgent("A", agent, Env(1100, "g1", false, false));
    assert r1.Record? && OwnedBy(r1.row, "A");

    var r2 := api.ListAgents("B", Env(1200, "E", false, false));
    assert r2.Listing?;
    assert !OwnedBy(api.agents[0], "B");
    assert r2.rows == [];
  }

  /** Through the router, a listing with a token issued for `u` and still
      valid returns `u`'s agents and no one else's, whatever the table holds. */
  method RouterListsOwnAgents(hasher: Hasher, signer: Signer, agents: seq<Row>, u: string)
    requires HasherSound(hasher) && SignerSound(signer) && IsTable(agents)
  {
    var api := new Backend(hasher, signer, [], agents, [], []);
    IssuedTokenAuthenticates(signer, u, 1000, 1060);
    var req := ListAgentsRequest(Some(BearerPrefix + signer.sign(u, 1000)));
    assert api.CallerOf(req, 1060) == Bound(u);
    var r := api.Serve(req, Env(1060, "F", false, false));
    assert r.Listing?;
    assert forall x :: x in r.rows ==> OwnedBy(x, u);
    assert api.agents == agents;
  }
}
