/** The handlers of `netlify/functions/api.js` over an in-memory copy of the
    database. A `Backend` holds the four tables the core touches and the two
    cryptographic collaborators; each route is a method that reads or
    updates the tables in the order the handler does. */
module Api {
  import opened Json
  import opened Text
  import opened Crypto
  import opened Gate
  import opened Tables
  import opened Http
  import opened Accounts

  const AgentsFetchFailed := "Erro ao buscar agentes"
  const AgentCreateFailed := "Erro ao criar agente"
  const AgentUpdateFailed := "Erro ao atualizar agente"
  const AgentDeleteFailed := "Erro ao excluir agente"
  const ConversationsFetchFailed := "Erro ao buscar conversas"
  const MessageSendFailed := "Erro ao enviar mensagem"
  const AgentCreated := "Agente criado com sucesso"
  const AgentUpdated := "Agente atualizado com sucesso"
  const AgentDeleted := "Agente excluído com sucesso"

  /** What the surroundings decide for one request: the clock (seconds), the
      id the database generates for an inserted row, and whether the
      handler's read call and its write call report an error. */
  datatype Env = Env(now: nat, freshId: string, readFails: bool, writeFails: bool)

  /** The row's `user_id` column is the caller: the `.eq('user_id', caller)`
      filter holds for it. */
  predicate OwnedBy(r: Row, caller: string) {
    Satisfies(Eq("user_id", caller), r)
  }

  /** `.eq('user_id', caller)`: matches exactly the caller's rows. */
  function OwnerQuery(caller: string): (q: Query)
    ensures |q| > 0 && q[0] == Eq("user_id", caller)
    ensures forall r :: Matches(q, r) <==> OwnedBy(r, caller)
  {
    var q := [Eq("user_id", caller)];
    assert forall r :: Matches(q, r) ==> Satisfies(q[0], r);
    q
  }

  /** `.eq('id', id).eq('user_id', caller)`: matches exactly the caller's rows
      with that id. */
  function TargetQuery(id: string, caller: string): (q: Query)
    ensures |q| > 0 && q[0] == Eq("id", id)
    ensures forall r :: Matches(q, r) <==> IdOf(r) == Str(id) && OwnedBy(r, caller)
  {
    var q := [Eq("id", id), Eq("user_id", caller)];
    assert forall r :: Matches(q, r) ==> Satisfies(q[0], r) && Satisfies(q[1], r);
    q
  }

  /** A query parameter that is given and not empty (`if (req.query.x)`). */
  predicate Given(p: Option<string>) {
    p.Some? && p.value != ""
  }

  /** The `/conversations` query: always the owner filter, then a `status`
      and an `agent_id` filter each only when that parameter is given. */
  function ConversationQuery(caller: string, status: Option<string>, agentId: Option<string>): (q: Query)
    ensures |q| > 0 && q[0] == Eq("user_id", caller)
    ensures Given(status) ==> Eq("status", status.value) in q
    ensures Given(agentId) ==> Eq("agent_id", agentId.value) in q
    ensures forall f :: f in q ==> f.col in {"user_id", "status", "agent_id"}
    ensures forall f :: f in q && f.col == "status" ==> Given(status) && f.val == status.value
    ensures forall f :: f in q && f.col == "agent_id" ==> Given(agentId) && f.val == agentId.value
  {
    OwnerQuery(caller)
    + (if Given(status) then [Eq("status", status.value)] else [])
    + (if Given(agentId) then [Eq("agent_id", agentId.value)] else [])
  }

  /** A conversation the query matches belongs to the caller and agrees with
      every filter that was supplied. */
  lemma ConversationMatch(caller: string, status: Option<string>, agentId: Option<string>, r: Row)
    requires Matches(ConversationQuery(caller, status, agentId), r)
    ensures OwnedBy(r, caller)
    ensures Given(status) ==> "status" in r && r["status"] == Str(status.value)
    ensures Given(agentId) ==> "agent_id" in r && r["agent_id"] == Str(agentId.value)
  {
    var q := ConversationQuery(caller, status, agentId);
    assert Satisfies(q[0], r);
    if Given(status) {
      var k :| 0 <= k < |q| && q[k] == Eq("status", status.value);
      assert Satisfies(q[k], r);
    }
    if Given(agentId) {
      var k :| 0 <= k < |q| && q[k] == Eq("agent_id", agentId.value);
      assert Satisfies(q[k], r);
    }
  }

  /** Supplying a filter parameter can only narrow the conversation list. */
  lemma ConversationFiltersNarrow(rows: seq<Row>, caller: string, status: Option<string>, agentId: Option<string>)
    ensures multiset(Where(rows, ConversationQuery(caller, status, agentId), true))
         <= multiset(Where(rows, ConversationQuery(caller, None, agentId), true))
    ensures multiset(Where(rows, ConversationQuery(caller, status, agentId), true))
         <= multiset(Where(rows, ConversationQuery(caller, status, None), true))
  {
    var full := ConversationQuery(caller, status, agentId);
    NarrowingQuery(rows, full, ConversationQuery(caller, None, agentId));
    NarrowingQuery(rows, full, ConversationQuery(caller, status, None));
  }

  /** The agent row a create sends: the body spread first, then `user_id`
      set to the caller, so an owner named in the body is overwritten. */
  function AgentData(body: Row, caller: string): (r: Row)
    ensures OwnedBy(r, caller)
    ensures r.Keys == body.Keys + {"user_id"}
    ensures forall k :: k in body && k != "user_id" ==> r[k] == body[k]
  {
    body + map["user_id" := Str(caller)]
  }

  /** Whatever the body claims, the stored agent belongs to the caller; every
      other column the body sends is stored as sent. */
  lemma CreatedAgentOwnedByCaller(body: Row, caller: string, freshId: string, now: nat)
    ensures OwnedBy(WithDefaults(freshId, now, AgentData(body, caller)), caller)
    ensures forall k :: k in body && k != "user_id" ==>
      WithDefaults(freshId, now, AgentData(body, caller))[k] == body[k]
  {
  }

  /** The update applies the whole body, `user_id` included: a matched row
      keeps its owner unless the body names another one, and then it moves. */
  lemma UpdateOwnerFollowsBody(rows: seq<Row>, id: string, caller: string, body: Row, i: nat)
    requires i < |rows| && Matches(TargetQuery(id, caller), rows[i])
    ensures "user_id" !in body ==> OwnedBy(UpdateWhere(rows, TargetQuery(id, caller), body)[i], caller)
    ensures "user_id" in body ==> UpdateWhere(rows, TargetQuery(id, caller), body)[i]["user_id"] == body["user_id"]
  {
    assert Satisfies(TargetQuery(id, caller)[1], rows[i]);
  }

  /** The message `/chat/send` inserts: `sender` is always `'user'`, the
      conversation and content are taken from the body (omitted when
      undefined), and the timestamp is the clock. */
  function MessageData(body: Row, now: nat): (r: Row)
    ensures "sender" in r && r["sender"] == Str("user")
    ensures "timestamp" in r && r["timestamp"] == Num(now)
    ensures "conversation_id" in r <==> "conversationId" in body
    ensures "conversationId" in body ==> r["conversation_id"] == body["conversationId"]
    ensures "content" in r <==> "message" in body
    ensures "message" in body ==> r["content"] == body["message"]
    ensures r.Keys <= {"conversation_id", "sender", "content", "timestamp"}
  {
    Entry("conversation_id", Field(body, "conversationId"))
    + map["sender" := Str("user")]
    + Entry("content", Field(body, "message"))
    + map["timestamp" := Num(now)]
  }

  predicate IdTaken(users: seq<User>, id: string) {
    exists u :: u in users && u.id == id
  }

  /** A routed request: the body, path and query parameters the handler
      reads, and for protected routes the Authorization header. */
  datatype Request =
    | RegisterRequest(body: Row)
    | LoginRequest(body: Row)
    | MeRequest(auth: Option<string>)
    | ListAgentsRequest(auth: Option<string>)
    | CreateAgentRequest(auth: Option<string>, body: Row)
    | UpdateAgentRequest(auth: Option<string>, id: string, body: Row)
    | DeleteAgentRequest(auth: Option<string>, id: string)
    | ListConversationsRequest(auth: Option<string>, status: Option<string>, agentId: Option<string>)
    | SendMessageRequest(auth: Option<string>, body: Row)
  {
    /** Routes mounted behind `authMiddleware`. */
    predicate Protected() {
      !RegisterRequest? && !LoginRequest?
    }
  }

  class Backend {
    var users: seq<User>
    var agents: seq<Row>
    var conversations: seq<Row>
    var messages: seq<Row>
    const hasher: Hasher
    const signer: Signer

    /** The collaborators obey their laws and the tables their constraints.
        E-mail uniqueness is not among them: see `Register`. */
    ghost predicate Valid()
      reads this
    {
      && HasherSound(hasher) && SignerSound(signer)
      && UniqueIds(users)
      && IsTable(agents) && IsTable(conversations) && IsTable(messages)
    }

    constructor (hasher: Hasher, signer: Signer, users: seq<User>, agents: seq<Row>,
                 conversations: seq<Row>, messages: seq<Row>)
      requires HasherSound(hasher) && SignerSound(signer)
      requires UniqueIds(users) && IsTable(agents) && IsTable(conversations) && IsTable(messages)
      ensures Valid()
      ensures this.hasher == hasher && this.signer == signer
      ensures this.users == users && this.agents == agents
      ensures this.conversations == conversations && this.messages == messages
    {
      this.hasher, this.signer := hasher, signer;
      this.users, this.agents := users, agents;
      this.conversations, this.messages := conversations, messages;
    }

    /** The outcome of `/auth/register` on `users` going from `before` to
        `after`: 409 and no change if exactly one user has the lowered
        address; otherwise the new user is appended and answered 201 with a
        token; a non-text e-mail or password or a failed insert gives 500
        and no change. A lookup that errors reads as "no such user". */
    ghost predicate RegisterDone(before: seq<User>, after: seq<User>, body: Row, env: Env, resp: Response) {
      if !("email" in body && body["email"].Str?) then
        resp == Failure(500, InternalError) && after == before
      else
        var existing := if env.readFails then None else Single(WithEmail(before, Lower(body["email"].s)));
        if existing.Some? then
          resp == Failure(409, EmailInUse) && after == before
        else if !("password" in body && body["password"].Str?) then
          resp == Failure(500, InternalError) && after == before
        else
          var u := NewUser(env.freshId, body, body["email"].s, hasher.hash(body["password"].s), env.now);
          if env.writeFails || IdTaken(before, env.freshId) then
            resp == Failure(500, InternalError) && after == before
          else
            after == before + [u] && resp == Session(201, Created, Public(u), signer.sign(u.id, env.now))
    }

    /** POST /auth/register. Look the lowered address up; 409 if exactly one
        user has it; otherwise hash the password and insert the new user,
        then answer 201 with the stripped user and a fresh token. */
    method Register(body: Row, env: Env) returns (resp: Response)
      requires Valid()
      modifies this`users
      ensures Valid()
      ensures RegisterDone(old(users), users, body, env, resp)
      ensures !env.readFails && UniqueEmails(old(users)) ==> UniqueEmails(users)
    {
      var email := Field(body, "email");
      if !(email.Some? && email.value.Str?) {
        return Failure(500, InternalError);                 // email.toLowerCase() throws
      }
      var lowered := Lower(email.value.s);
      var existing := if env.readFails then None else Single(WithEmail(users, lowered));
      if existing.Some? {
        return Failure(409, EmailInUse);
      }
      var password := Field(body, "password");
      if !(password.Some? && password.value.Str?) {
        return Failure(500, InternalError);                 // bcrypt.hash throws
      }
      var u := NewUser(env.freshId, body, email.value.s, hasher.hash(password.value.s), env.now);
      if env.writeFails || exists v :: v in users && v.id == env.freshId {
        return Failure(500, InternalError);
      }
      if !env.readFails && UniqueEmails(users) {
        LookupByEmail(users, lowered);
      }
      users := users + [u];
      resp := Session(201, Created, Public(u), signer.sign(u.id, env.now));
    }

    /** The outcome of `/auth/login`: refusals follow `Decide` and change
        nothing; a grant answers 200 with the user as read and a token, and
        stamps `last_login` unless that update fails. */
    ghost predicate LoginDone(before: seq<User>, after: seq<User>, body: Row, env: Env, resp: Response) {
      if !("email" in body && body["email"].Str?) then
        resp == Failure(500, InternalError) && after == before
      else
        var found := if env.readFails then None else Single(WithEmail(before, Lower(body["email"].s)));
        var v := Decide(found, Field(body, "password"), hasher);
        if !v.Granted? then
          resp == Refusal(v) && after == before
        else
          && resp == Session(200, LoggedIn, Public(v.user), signer.sign(v.user.id, env.now))
          && after == if env.writeFails then before else StampLogin(before, v.user.id, env.now)
    }

    /** POST /auth/login. Look the lowered address up, apply the ordered
        checks, and on success record the login time (best effort: a failed
        update does not fail the login) and answer with a token. The user
        returned is the one read before the update. */
    method Login(body: Row, env: Env) returns (resp: Response)
      requires Valid()
      modifies this`users
      ensures Valid()
      ensures LoginDone(old(users), users, body, env, resp)
    {
      var email := Field(body, "email");
      if !(email.Some? && email.value.Str?) {
        return Failure(500, InternalError);
      }
      var found := if env.readFails then None else Single(WithEmail(users, Lower(email.value.s)));
      var v := Decide(found, Field(body, "password"), hasher);
      if !v.Granted? {
        return Refusal(v);
      }
      if !env.writeFails {
        StampLoginKeepsKeys(users, v.user.id, env.now);
        users := StampLogin(users, v.user.id, env.now);
      }
      resp := Session(200, LoggedIn, Public(v.user), signer.sign(v.user.id, env.now));
    }

    /** The outcome of `/auth/me` for `caller`: the caller's own record,
        stripped, exactly when it is stored and the read succeeds; 404
        otherwise. */
    ghost predicate MeDone(users: seq<User>, caller: string, env: Env, resp: Response) {
      && (resp.Profile? || resp == Failure(404, UserNotFound))
      && (resp.Profile? <==> !env.readFails && exists u :: u in users && u.id == caller)
      && (resp.Profile? ==> exists u :: u in users && u.id == caller && resp.user == Public(u))
      && (resp.Profile? ==> "password" !in resp.user && resp.user["id"] == Str(caller))
    }

    /** GET /auth/me for the bound caller: the caller's own record, stripped,
        or 404 when the single-row lookup finds none. */
    method Me(caller: string, env: Env) returns (resp: Response)
      requires Valid()
      ensures MeDone(users, caller, env, resp)
    {
      LookupById(users, caller);
      var found := if env.readFails then None else Single(WithId(users, caller));
      if found.None? {
        return Failure(404, UserNotFound);
      }
      resp := Profile(Public(found.value));
    }

    /** The outcome of `GET /agents` for `caller`: exactly the caller's
        agents, with their multiplicities, newest first, `[]` when there are
        none; 500 only on a read error. */
    ghost predicate ListAgentsDone(agents: seq<Row>, caller: string, env: Env, resp: Response) {
      && (env.readFails ==> resp == Failure(500, AgentsFetchFailed))
      && (!env.readFails ==> resp.Listing?)
      && (resp.Listing? ==> forall r :: r in resp.rows ==> r in agents && OwnedBy(r, caller))
      && (resp.Listing? ==> forall x {:trigger multiset(resp.rows)[x]} ::
            multiset(resp.rows)[x] == if OwnedBy(x, caller) then multiset(agents)[x] else 0)
      && (resp.Listing? ==> NewestFirstOrder(resp.rows))
      && (resp.Listing? ==> (resp.rows == [] <==> forall r :: r in agents ==> !OwnedBy(r, caller)))
    }

    /** GET /agents: the caller's agents and no one else's, newest first;
        an empty list when there are none. */
    method ListAgents(caller: string, env: Env) returns (resp: Response)
      requires Valid()
      ensures ListAgentsDone(agents, caller, env, resp)
    {
      if env.readFails {
        return Failure(500, AgentsFetchFailed);
      }
      var q := OwnerQuery(caller);
      var rows := NewestFirst(Where(agents, q, true));
      assert |rows| == |Where(agents, q, true)| by {
        assert |multiset(rows)| == |multiset(Where(agents, q, true))|;
      }
      assert forall r :: r in rows ==> r in Where(agents, q, true) by {
        forall r | r in rows ensures r in Where(agents, q, true) {
          assert multiset(rows)[r] > 0;
        }
      }
      resp := Listing(rows);
    }

    /** The outcome of `POST /agents` for `caller`: the body, owned by the
        caller and given the database defaults, is appended and answered 201;
        an error gives 500 and no change. */
    ghost predicate CreateAgentDone(before: seq<Row>, after: seq<Row>, caller: string, body: Row, env: Env, resp: Response) {
      && (var row := WithDefaults(env.freshId, env.now, AgentData(body, caller));
          if !env.writeFails && Insertable(before, row) then
            after == before + [row] && resp == Record(201, Some(AgentCreated), row)
          else
            after == before && resp == Failure(500, AgentCreateFailed))
      && (resp.Record? ==> OwnedBy(resp.row, caller) && after == before + [resp.row])
    }

    /** POST /agents: insert the body with the caller stamped as owner. */
    method CreateAgent(caller: string, body: Row, env: Env) returns (resp: Response)
      requires Valid()
      modifies this`agents
      ensures Valid()
      ensures CreateAgentDone(old(agents), agents, caller, body, env, resp)
    {
      var row := WithDefaults(env.freshId, env.now, AgentData(body, caller));
      if env.writeFails || !Insertable(agents, row) {
        return Failure(500, AgentCreateFailed);
      }
      InsertKeepsTable(agents, row);
      agents := agents + [row];
      resp := Record(201, Some(AgentCreated), row);
    }

    /** The outcome of `PUT /agents/:id` for `caller`: the body is applied to
        the caller's row with that id when exactly one matches and the result
        keeps the table constraints; otherwise 500 and no change. Rows not
        matched never change. */
    ghost predicate UpdateAgentDone(before: seq<Row>, after: seq<Row>, caller: string, id: string, body: Row,
                              env: Env, resp: Response) {
      && (var q := TargetQuery(id, caller);
          var hits := Where(before, q, true);
          var updated := UpdateWhere(before, q, body);
          if !env.writeFails && |hits| == 1 && IsTable(updated) then
            after == updated && resp == Record(200, Some(AgentUpdated), hits[0] + body)
          else
            after == before && resp == Failure(500, AgentUpdateFailed))
      && |after| == |before|
      && (forall i :: 0 <= i < |after| && !(IdOf(before[i]) == Str(id) && OwnedBy(before[i], caller)) ==>
            after[i] == before[i])
      && ((forall r :: r in before ==> !(IdOf(r) == Str(id) && OwnedBy(r, caller))) ==>
            resp == Failure(500, AgentUpdateFailed))
    }

    /** PUT /agents/:id: apply the whole body to the row with that id owned
        by the caller. `.single()` turns zero matched rows into an error, and
        every error is answered 500; so is a body that breaks a table
        constraint. */
    method UpdateAgent(caller: string, id: string, body: Row, env: Env) returns (resp: Response)
      requires Valid()
      modifies this`agents
      ensures Valid()
      ensures UpdateAgentDone(old(agents), agents, caller, id, body, env, resp)
    {
      var q := TargetQuery(id, caller);
      var hits := Where(agents, q, true);
      var updated := UpdateWhere(agents, q, body);
      if env.writeFails || |hits| != 1 || !IsTable(updated) {
        return Failure(500, AgentUpdateFailed);
      }
      agents := updated;
      resp := Record(200, Some(AgentUpdated), hits[0] + body);
    }

    /** The outcome of `DELETE /agents/:id` for `caller`: exactly the
        caller's rows with that id are gone, even when there are none; an
        error gives 500 and no change. */
    ghost predicate DeleteAgentDone(before: seq<Row>, after: seq<Row>, caller: string, id: string, env: Env, resp: Response) {
      && (env.writeFails ==> resp == Failure(500, AgentDeleteFailed) && after == before)
      && (!env.writeFails ==> resp == Done(AgentDeleted) && after == Where(before, TargetQuery(id, caller), false))
      && (forall x {:trigger multiset(after)[x]} ::
            multiset(after)[x] ==
              if !env.writeFails && IdOf(x) == Str(id) && OwnedBy(x, caller) then 0 else multiset(before)[x])
    }

    /** DELETE /agents/:id: remove the rows with that id owned by the caller.
        Matching nothing is still a success. */
    method DeleteAgent(caller: string, id: string, env: Env) returns (resp: Response)
      requires Valid()
      modifies this`agents
      ensures Valid()
      ensures DeleteAgentDone(old(agents), agents, caller, id, env, resp)
    {
      var q := TargetQuery(id, caller);
      if env.writeFails {
        return Failure(500, AgentDeleteFailed);
      }
      WhereKeepsTable(agents, q, false);
      agents := Where(agents, q, false);
      resp := Done(AgentDeleted);
    }

    /** The outcome of `GET /conversations` for `caller`: exactly the rows
        the owner and filter query matches, all the caller's, newest first;
        500 only on a read error. */
    ghost predicate ListConversationsDone(conversations: seq<Row>, caller: string, status: Option<string>,
                                    agentId: Option<string>, env: Env, resp: Response) {
      && (env.readFails ==> resp == Failure(500, ConversationsFetchFailed))
      && (!env.readFails ==> resp.Listing?)
      && (resp.Listing? ==> forall r :: r in resp.rows ==>
            && r in conversations && OwnedBy(r, caller)
            && (Given(status) ==> "status" in r && r["status"] == Str(status.value))
            && (Given(agentId) ==> "agent_id" in r && r["agent_id"] == Str(agentId.value)))
      && (resp.Listing? ==>
            multiset(resp.rows) == multiset(Where(conversations, ConversationQuery(caller, status, agentId), true)))
      && (resp.Listing? ==> NewestFirstOrder(resp.rows))
    }

    /** GET /conversations: the caller's conversations matching the given
        filters, newest first. */
    method ListConversations(caller: string, status: Option<string>, agentId: Option<string>, env: Env)
      returns (resp: Response)
      requires Valid()
      ensures ListConversationsDone(conversations, caller, status, agentId, env, resp)
    {
      if env.readFails {
        return Failure(500, ConversationsFetchFailed);
      }
      var q := ConversationQuery(caller, status, agentId);
      var hits := Where(conversations, q, true);
      var rows := NewestFirst(hits);
      forall r | r in rows
        ensures r in conversations && OwnedBy(r, caller)
        ensures Given(status) ==> "status" in r && r["status"] == Str(status.value)
        ensures Given(agentId) ==> "agent_id" in r && r["agent_id"] == Str(agentId.value)
      {
        assert multiset(rows)[r] > 0;
        assert r in hits;
        ConversationMatch(caller, status, agentId, r);
      }
      resp := Listing(rows);
    }

    /** The outcome of `/chat/send`: one message built from the body alone is
        appended and answered 200; an error gives 500 and no change. */
    ghost predicate SendMessageDone(before: seq<Row>, after: seq<Row>, body: Row, env: Env, resp: Response) {
      && (var row := WithDefaults(env.freshId, env.now, MessageData(body, env.now));
          if !env.writeFails && Insertable(before, row) then
            after == before + [row] && resp == Record(200, None, row)
          else
            after == before && resp == Failure(500, MessageSendFailed))
      && (resp.Record? ==> "sender" in resp.row && resp.row["sender"] == Str("user"))
      && (resp.Record? && "conversationId" in body ==>
            "conversation_id" in resp.row && resp.row["conversation_id"] == body["conversationId"])
    }

    /** POST /chat/send: insert one message from the user. The conversation
        id is taken as sent: there is no check that the caller owns it, and
        the caller's id plays no part in what is stored. */
    method SendMessage(caller: string, body: Row, env: Env) returns (resp: Response)
      requires Valid()
      modifies this`messages
      ensures Valid()
      ensures SendMessageDone(old(messages), messages, body, env, resp)
    {
      var row := WithDefaults(env.freshId, env.now, MessageData(body, env.now));
      if env.writeFails || !Insertable(messages, row) {
        return Failure(500, MessageSendFailed);
      }
      InsertKeepsTable(messages, row);
      messages := messages + [row];
      resp := Record(200, None, row);
    }

    /** The id the gate binds for a protected request at time `now`, if any. */
    function CallerOf(req: Request, now: nat): Gate
      requires req.Protected()
    {
      Authenticate(req.auth, VerifierAt(signer, now))
    }

    /** The router: protected routes pass through the gate first. A rejected
        request answers 401 and changes nothing; an admitted one runs its
        handler with the id the gate bound, and nothing else. Whatever token a
        request carries, every agent or conversation a protected route lists
        or creates belongs to the user bound from it. Each route writes only
        its own table. */
    method Serve(req: Request, env: Env) returns (resp: Response)
      requires Valid()
      modifies this`users, this`agents, this`messages
      ensures Valid()
      ensures req.RegisterRequest? ==> RegisterDone(old(users), users, req.body, env, resp)
      ensures req.LoginRequest? ==> LoginDone(old(users), users, req.body, env, resp)
      ensures req.Protected() && CallerOf(req, env.now).Reject? ==>
        && resp == Failure(401, CallerOf(req, env.now).msg)
        && users == old(users) && agents == old(agents) && messages == old(messages)
      ensures req.Protected() && CallerOf(req, env.now).Bound? ==>
        var caller := CallerOf(req, env.now).userId;
        match req
        case MeRequest(_) => MeDone(users, caller, env, resp)
        case ListAgentsRequest(_) => ListAgentsDone(agents, caller, env, resp)
        case CreateAgentRequest(_, body) => CreateAgentDone(old(agents), agents, caller, body, env, resp)
        case UpdateAgentRequest(_, id, body) => UpdateAgentDone(old(agents), agents, caller, id, body, env, resp)
        case DeleteAgentRequest(_, id) => DeleteAgentDone(old(agents), agents, caller, id, env, resp)
        case ListConversationsRequest(_, status, agentId) =>
          ListConversationsDone(conversations, caller, status, agentId, env, resp)
        case SendMessageRequest(_, body) => SendMessageDone(old(messages), messages, body, env, resp)
        case _ => false
      ensures req.Protected() && (resp.Listing? || (req.CreateAgentRequest? && resp.Record?)) ==>
        && CallerOf(req, env.now).Bound?
        && (resp.Listing? ==> forall r :: r in resp.rows ==> OwnedBy(r, CallerOf(req, env.now).userId))
        && (resp.Record? ==> OwnedBy(resp.row, CallerOf(req, env.now).userId))
      ensures req.Protected() ==> users == old(users)
      ensures !(req.CreateAgentRequest? || req.UpdateAgentRequest? || req.DeleteAgentRequest?) ==>
        agents == old(agents)
      ensures !req.SendMessageRequest? ==> messages == old(messages)
      ensures conversations == old(conversations)
    {
      if !req.Protected() {
        if req.RegisterRequest? {
          resp := Register(req.body, env);
        } else {
          resp := Login(req.body, env);
        }
        return;
      }
      var gate := CallerOf(req, env.now);
      if gate.Reject? {
        return Failure(401, gate.msg);
      }
      var caller := gate.userId;
      match req
      case MeRequest(_) =>
        resp := Me(caller, env);
      case ListAgentsRequest(_) =>
        resp := ListAgents(caller, env);
      case CreateAgentRequest(_, body) =>
        resp := CreateAgent(caller, body, env);
      case UpdateAgentRequest(_, id, body) =>
        resp := UpdateAgent(caller, id, body, env);
      case DeleteAgentRequest(_, id) =>
        resp := DeleteAgent(caller, id, env);
      case ListConversationsRequest(_, status, agentId) =>
        resp := ListConversations(caller, status, agentId, env);
      case SendMessageRequest(_, body) =>
        resp := SendMessage(caller, body, env);
    }
  }
}
