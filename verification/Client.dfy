/** Requests over a connection that loses requests and answers, and the retries that make up for it.

    Before each send other clients may have changed anything but the node the request is about; whether
    the request arrives, and whether its answer does, is decided turn by turn. */
module Client {
  import opened Bytes
  import opened Records

  type Name = seq<byte>

  type Nodes = map<NodeId, Name>

  /** A create carries the id of the node it makes. */
  datatype Request = Create(id: NodeId, name: Name) | Delete(id: NodeId) | Get(id: NodeId)

  datatype Status = Created | NoContent | Found(name: Name) | Clash | Missing | Busy

  datatype Fate =
    | RequestLost
    | AnswerLost
    | Refused      // turned away with a 429 or a 5xx
    | Failed       // carried out, then answered with a 5xx
    | Answered

  /** What one send meets: its fate, whether something else stands in its way, and the other nodes by now. */
  datatype Turn = Turn(fate: Fate, blocked: bool, others: Nodes)

  type World = nat -> Turn

  datatype ClientError = Http | Taken | Absent | NotEmpty | Unexpected

  // ----- the server -----

  function Serve(nodes: Nodes, req: Request, blocked: bool): (Nodes, Status) {
    match req
    case Create(id, name) => if id in nodes || blocked then (nodes, Clash) else (nodes[id := name], Created)
    case Delete(id) =>
      if id !in nodes then (nodes, Missing) else if blocked then (nodes, Clash) else (nodes - {id}, NoContent)
    case Get(id) => (nodes, if id in nodes then Found(nodes[id]) else Missing)
  }

  /** The nodes when a request arrives: others may have changed, the one it is about has not. */
  function Meanwhile(nodes: Nodes, id: NodeId, others: Nodes): Nodes {
    if id in nodes then others[id := nodes[id]] else others - {id}
  }

  function Arrives(fate: Fate): bool {
    fate.AnswerLost? || fate.Failed? || fate.Answered?
  }

  function Deliver(nodes: Nodes, req: Request, turn: Turn): (Nodes, Option<Status>) {
    var before := Meanwhile(nodes, req.id, turn.others);
    var (after, status) := Serve(before, req, turn.blocked);
    (if Arrives(turn.fate) then after else before,
     match turn.fate
     case RequestLost => None
     case AnswerLost => None
     case Refused => Some(Busy)
     case Failed => Some(Busy)
     case Answered => Some(status))
  }

  /** An answer that ends the attempts. */
  predicate Final(answer: Option<Status>) {
    answer.Some? && answer != Some(Busy)
  }

  // ----- retrying -----

  datatype Exchange = Exchange(nodes: Nodes, answer: Option<Status>, retried: bool, sends: nat)

  function Try(nodes: Nodes, req: Request, max: nat, world: World, i: nat, retried: bool): Exchange
    requires i <= max
    decreases max - i
  {
    var (after, answer) := Deliver(nodes, req, world(i));
    if i == max || Final(answer) then Exchange(after, answer, retried, i + 1)
    else if i + 1 == max then Try(after, req, max, world, max, retried)
    else Try(after, req, max, world, i + 1, true)
  }

  function Retrying(nodes: Nodes, req: Request, max: nat, world: World): Exchange {
    Try(nodes, req, max, world, 0, false)
  }

  /** How many of the sends made a node. */
  function Makes(nodes: Nodes, req: Request, max: nat, world: World, i: nat): nat
    requires i <= max
    decreases max - i
  {
    var before := Meanwhile(nodes, req.id, world(i).others);
    var (after, answer) := Deliver(nodes, req, world(i));
    (if req.id !in before && req.id in after then 1 else 0) +
    if i == max || Final(answer) then 0
    else if i + 1 == max then Makes(after, req, max, world, max)
    else Makes(after, req, max, world, i + 1)
  }

  /** The result of a create. A conflict after a retry may be with ourselves, so the node is looked up. */
  function CreateResult(e: Exchange, key: NodeId, name: Name, looked: Exchange): Result<(), ClientError> {
    match e.answer
    case None => Err(Http)
    case Some(Created) => Ok(())
    case Some(Clash) => if e.retried && looked.answer == Some(Found(name)) then Ok(()) else Err(Taken)
    case Some(_) => Err(Unexpected)
  }

  /** The result of a delete. Finding nothing after a retry is what the caller asked for. */
  function DeleteResult(e: Exchange): Result<(), ClientError> {
    match e.answer
    case None => Err(Http)
    case Some(NoContent) => Ok(())
    case Some(Missing) => if e.retried then Ok(()) else Err(Absent)
    case Some(Clash) => Err(NotEmpty)
    case Some(_) => Err(Unexpected)
  }

  class HttpClient {
    const max: nat
    /** The server's nodes. */
    var nodes: Nodes

    constructor (max: nat, nodes: Nodes)
      ensures this.max == max && this.nodes == nodes
    {
      this.max, this.nodes := max, nodes;
    }

    method Send(req: Request, turn: Turn) returns (answer: Option<Status>)
      modifies this
      ensures (nodes, answer) == Deliver(old(nodes), req, turn)
    {
      var (after, got) := Deliver(nodes, req, turn);
      nodes, answer := after, got;
    }

    method SendRetrying(req: Request, world: World) returns (answer: Option<Status>, retried: bool, ghost sends: nat)
      modifies this
      ensures Exchange(nodes, answer, retried, sends) == Retrying(old(nodes), req, max, world)
    {
      retried := false;
      for attempt := 0 to max
        invariant Try(nodes, req, max, world, attempt, retried) == Retrying(old(nodes), req, max, world)
      {
        answer := Send(req, world(attempt));
        if Final(answer) { return answer, retried, attempt + 1; }
        if attempt + 1 == max { break; }
        retried := true;
      }
      answer := Send(req, world(max));
      sends := max + 1;
    }

    /** `world` is what the create meets, `later` what the lookup after a conflict meets. */
    method CreateNode(key: NodeId, name: Name, world: World, later: World) returns (r: Result<(), ClientError>)
      modifies this
      ensures var e := Retrying(old(nodes), Create(key, name), max, world);
              var looked := Retrying(e.nodes, Get(key), max, later);
              && r == CreateResult(e, key, name, looked)
              && nodes == (if e.answer == Some(Clash) && e.retried then looked.nodes else e.nodes)
              && (r == Err(Http) <==> e.answer == None) && (r == Err(Unexpected) <==> e.answer == Some(Busy))
              && (max != 1 && Final(e.answer) && (e.answer == Some(Clash) ==> Final(looked.answer)) ==>
                    && (r.Ok? <==> key in nodes && nodes[key] == name && (key !in old(nodes) || e.sends > 1))
                    && (r.Err? ==> r == Err(Taken)))
    {
      CreateReports(nodes, key, name, max, world, later);
      var answer, retried, sends := SendRetrying(Create(key, name), world);
      if answer.None? { return Err(Http); }
      match answer.value {
        case Created => r := Ok(());
        case Clash =>
          if retried {
            var found, again, lookups := SendRetrying(Get(key), later);
            r := if found == Some(Found(name)) then Ok(()) else Err(Taken);
          } else {
            r := Err(Taken);
          }
        case _ => r := Err(Unexpected);
      }
    }

    method DeleteNode(id: NodeId, world: World) returns (r: Result<(), ClientError>)
      modifies this
      ensures var e := Retrying(old(nodes), Delete(id), max, world);
              && r == DeleteResult(e) && nodes == e.nodes
              && (r == Err(Http) <==> e.answer == None) && (r == Err(Unexpected) <==> e.answer == Some(Busy))
              && (max != 1 && Final(e.answer) ==>
                    && (r == Err(NotEmpty) <==> id in nodes)
                    && (r.Ok? <==> id !in nodes && (id in old(nodes) || !Final(Deliver(old(nodes), Delete(id), world(0)).1))))
    {
      DeleteReports(nodes, id, max, world);
      var answer, retried, sends := SendRetrying(Delete(id), world);
      if answer.None? { return Err(Http); }
      match answer.value {
        case NoContent => r := Ok(());
        case Missing => r := if retried then Ok(()) else Err(Absent);
        case Clash => r := Err(NotEmpty);
        case _ => r := Err(Unexpected);
      }
    }
  }

  // ----- what retries can and cannot do -----

  /** A create takes effect unless it is lost, turned away or blocked, whatever becomes of its answer; the other nodes are
      whatever others have made of them. */
  lemma TakesEffect(nodes: Nodes, id: NodeId, name: Name, turn: Turn)
    requires id !in nodes
    ensures var after := Deliver(nodes, Create(id, name), turn).0;
            && (id in after <==> !turn.blocked && turn.fate != RequestLost && turn.fate != Refused)
            && (id in after ==> after[id] == name)
            && forall m :: m != id ==> (m in after <==> m in turn.others)
  {
  }

  /** A request is sent at least once and at most once more than the configured attempts. */
  lemma {:induction false} SendsBounded(nodes: Nodes, req: Request, max: nat, world: World, i: nat, retried: bool)
    requires i <= max
    ensures i < Try(nodes, req, max, world, i, retried).sends <= max + 1
    decreases max - i
  {
    var (after, answer) := Deliver(nodes, req, world(i));
    if i != max && !Final(answer) {
      if i + 1 == max { SendsBounded(after, req, max, world, max, retried); } else { SendsBounded(after, req, max, world, i + 1, true); }
    }
  }

  /** Nothing came back, or a 429 or a 5xx. */
  predicate Unanswered(answer: Option<Status>) {
    answer == None || answer == Some(Busy)
  }

  /** A send that is not answered is followed by another until the attempts are used up, and one that is answered is not. */
  lemma {:induction false} RetriesUntilAnswered(nodes: Nodes, req: Request, max: nat, world: World, i: nat, retried: bool)
    requires i <= max
    ensures var e := Try(nodes, req, max, world, i, retried);
            && (Unanswered(e.answer) ==> e.sends == max + 1)
            && (i < max ==> (e.sends > i + 1 <==> Unanswered(Deliver(nodes, req, world(i)).1)))
    decreases max - i
  {
    var (after, answer) := Deliver(nodes, req, world(i));
    if i != max && !Final(answer) {
      if i + 1 == max {
        RetriesUntilAnswered(after, req, max, world, max, retried);
        SendsBounded(after, req, max, world, max, retried);
      } else {
        RetriesUntilAnswered(after, req, max, world, i + 1, true);
        SendsBounded(after, req, max, world, i + 1, true);
      }
    }
  }

  /** With nothing lost one send is enough, and what is in the way of it decides. */
  lemma AnsweredAtOnce(nodes: Nodes, req: Request, max: nat, world: World)
    requires world(0).fate == Answered
    ensures var e, blocked := Retrying(nodes, req, max, world), world(0).blocked;
            && e.sends == 1 && !e.retried
            && match req
               case Create(id, name) =>
                 && e.answer == Some(if id in nodes || blocked then Clash else Created)
                 && (id in e.nodes <==> id in nodes || !blocked)
               case Delete(id) =>
                 && e.answer == Some(if id !in nodes then Missing else if blocked then Clash else NoContent)
                 && (id in e.nodes <==> id in nodes && blocked)
               case Get(id) => e.answer == Some(if id in nodes then Found(nodes[id]) else Missing)
  {
  }

  /** The retry flag says whether there was an earlier send, unless exactly one attempt is configured. */
  lemma {:induction false} RetriedMeansResent(nodes: Nodes, req: Request, max: nat, world: World, i: nat, retried: bool)
    requires i <= max && max != 1 && (retried <==> i > 0)
    ensures var e := Try(nodes, req, max, world, i, retried); e.retried <==> e.sends > 1
    decreases max - i
  {
    SendsBounded(nodes, req, max, world, i, retried);
    var (after, answer) := Deliver(nodes, req, world(i));
    if i != max && !Final(answer) {
      if i + 1 == max { RetriedMeansResent(after, req, max, world, max, retried); } else { RetriedMeansResent(after, req, max, world, i + 1, true); }
    }
  }

  /** With exactly one attempt it is wrong whenever that attempt gets no usable answer, and only then. */
  lemma FlagExact(nodes: Nodes, req: Request, max: nat, world: World)
    ensures var e := Retrying(nodes, req, max, world);
            (e.retried <==> e.sends > 1) <==> max != 1 || Final(Deliver(nodes, req, world(0)).1)
  {
    if max != 1 {
      RetriedMeansResent(nodes, req, max, world, 0, false);
    } else {
      var (after, answer) := Deliver(nodes, req, world(0));
      if !Final(answer) { assert Try(after, req, 1, world, 1, false).sends == 2; }
    }
  }

  /** The node under the key is the one asked for, or there is none. */
  predicate Ours(nodes: Nodes, key: NodeId, name: Name) {
    key in nodes ==> nodes[key] == name
  }

  /** One logical create makes at most one node, and none once it is there. */
  lemma {:induction false} CreatesOnce(nodes: Nodes, key: NodeId, name: Name, max: nat, world: World, i: nat,
                                       retried: bool)
    requires i <= max && Ours(nodes, key, name)
    ensures var e, made := Try(nodes, Create(key, name), max, world, i, retried), Makes(nodes, Create(key, name), max, world, i);
            && Ours(e.nodes, key, name) && made == (if key !in nodes && key in e.nodes then 1 else 0)
            && (key in nodes ==> key in e.nodes)
            && (e.answer == Some(Created) ==> key in e.nodes)
            && (e.answer == Some(Clash) && key !in nodes && key in e.nodes ==> e.sends > i + 1)
    decreases max - i
  {
    var req := Create(key, name);
    var (after, answer) := Deliver(nodes, req, world(i));
    if i != max && !Final(answer) {
      if i + 1 == max {
        CreatesOnce(after, key, name, max, world, max, retried);
        SendsBounded(after, req, max, world, max, retried);
      } else {
        CreatesOnce(after, key, name, max, world, i + 1, true);
        SendsBounded(after, req, max, world, i + 1, true);
      }
    }
  }

  lemma {:induction false} LookupChangesNothing(nodes: Nodes, key: NodeId, max: nat, world: World, i: nat,
                                                retried: bool)
    requires i <= max
    ensures var e := Try(nodes, Get(key), max, world, i, retried);
            && (key in e.nodes <==> key in nodes) && (key in nodes ==> e.nodes[key] == nodes[key])
            && (e.answer.Some? && e.answer.value.Found? ==> key in nodes && e.answer.value.name == nodes[key])
            && (e.answer == Some(Missing) ==> key !in nodes)
    decreases max - i
  {
    var (after, answer) := Deliver(nodes, Get(key), world(i));
    if i != max && !Final(answer) {
      if i + 1 == max { LookupChangesNothing(after, key, max, world, max, retried); } else { LookupChangesNothing(after, key, max, world, i + 1, true); }
    }
  }

  lemma {:induction false} LookupAnswers(nodes: Nodes, key: NodeId, max: nat, world: World, i: nat, retried: bool)
    requires i <= max && Final(Try(nodes, Get(key), max, world, i, retried).answer)
    ensures Try(nodes, Get(key), max, world, i, retried).answer == Some(if key in nodes then Found(nodes[key]) else Missing)
    decreases max - i
  {
    var (after, answer) := Deliver(nodes, Get(key), world(i));
    if i != max && !Final(answer) {
      if i + 1 == max { LookupAnswers(after, key, max, world, max, retried); } else { LookupAnswers(after, key, max, world, i + 1, true); }
    }
  }

  /** Under every pattern of losses: a create with a fresh key makes at most one node; success means that
      node is there under its name; and, unless exactly one attempt is configured, a reported conflict
      means it is not there, as long as the lookup gets an answer. */
  lemma CreateIsReplaySafe(nodes: Nodes, key: NodeId, name: Name, max: nat, world: World, later: World)
    requires key !in nodes
    ensures var e := Retrying(nodes, Create(key, name), max, world);
            var looked := Retrying(e.nodes, Get(key), max, later);
            var r := CreateResult(e, key, name, looked);
            && Makes(nodes, Create(key, name), max, world, 0) <= 1 && e.sends <= max + 1
            && (key in looked.nodes <==> key in e.nodes)
            && (r.Ok? ==> key in looked.nodes && looked.nodes[key] == name)
            && (r == Err(Taken) && max != 1 && Final(looked.answer) ==> key !in e.nodes)
  {
    var e := Retrying(nodes, Create(key, name), max, world);
    CreatesOnce(nodes, key, name, max, world, 0, false);
    SendsBounded(nodes, Create(key, name), max, world, 0, false);
    if max != 1 { RetriedMeansResent(nodes, Create(key, name), max, world, 0, false); }
    LookupChangesNothing(e.nodes, key, max, later, 0, false);
    if Final(Retrying(e.nodes, Get(key), max, later).answer) { LookupAnswers(e.nodes, key, max, later, 0, false); }
  }

  lemma {:induction false} CreateAnswers(nodes: Nodes, key: NodeId, name: Name, max: nat, world: World, i: nat, retried: bool)
    requires i <= max
    ensures var answer := Try(nodes, Create(key, name), max, world, i, retried).answer;
            answer == None || answer == Some(Busy) || answer == Some(Created) || answer == Some(Clash)
    decreases max - i
  {
    var (after, answer) := Deliver(nodes, Create(key, name), world(i));
    if i != max && !Final(answer) {
      if i + 1 == max { CreateAnswers(after, key, name, max, world, max, retried); } else { CreateAnswers(after, key, name, max, world, i + 1, true); }
    }
  }

  /** A key that is taken stays as it is, and a create under it is never told it made a node. */
  lemma {:induction false} CreateTaken(nodes: Nodes, key: NodeId, name: Name, max: nat, world: World, i: nat, retried: bool)
    requires i <= max && key in nodes
    ensures var e := Try(nodes, Create(key, name), max, world, i, retried);
            key in e.nodes && e.nodes[key] == nodes[key] && e.answer != Some(Created)
    decreases max - i
  {
    var (after, answer) := Deliver(nodes, Create(key, name), world(i));
    if i != max && !Final(answer) {
      if i + 1 == max { CreateTaken(after, key, name, max, world, max, retried); } else { CreateTaken(after, key, name, max, world, i + 1, true); }
    }
  }

  /** Under every pattern of losses: once the create and the lookup it may need have been answered, a create succeeds
      exactly if the node under its key is there and has its name, and was not there before or the first send got no
      usable answer; otherwise it reports a conflict. */
  lemma CreateReports(nodes: Nodes, key: NodeId, name: Name, max: nat, world: World, later: World)
    ensures var e := Retrying(nodes, Create(key, name), max, world);
            var looked := Retrying(e.nodes, Get(key), max, later);
            var r := CreateResult(e, key, name, looked);
            && (r == Err(Http) <==> e.answer == None) && (r == Err(Unexpected) <==> e.answer == Some(Busy))
            && (key in looked.nodes <==> key in e.nodes) && (key in e.nodes ==> looked.nodes[key] == e.nodes[key])
            && (max != 1 && Final(e.answer) && (e.answer == Some(Clash) ==> Final(looked.answer)) ==>
                  && (r.Ok? <==> key in e.nodes && e.nodes[key] == name && (key !in nodes || e.sends > 1))
                  && (r.Err? ==> r == Err(Taken)))
  {
    var e := Retrying(nodes, Create(key, name), max, world);
    CreateAnswers(nodes, key, name, max, world, 0, false);
    LookupChangesNothing(e.nodes, key, max, later, 0, false);
    if max != 1 {
      if key in nodes { CreateTaken(nodes, key, name, max, world, 0, false); } else { CreatesOnce(nodes, key, name, max, world, 0, false); }
      RetriedMeansResent(nodes, Create(key, name), max, world, 0, false);
      if Final(Retrying(e.nodes, Get(key), max, later).answer) { LookupAnswers(e.nodes, key, max, later, 0, false); }
    }
  }

  /** With one attempt configured the flag is wrong: the answer to the create is lost, the last try meets
      the node it made, and the caller is told someone else was first. */
  lemma OneAttemptMisreports(key: NodeId, name: Name)
    ensures var world: World := i => if i == 0 then Turn(AnswerLost, false, map[]) else Turn(Answered, false, map[]);
            var e := Retrying(map[], Create(key, name), 1, world);
            e.answer == Some(Clash) && !e.retried && e.sends == 2 && key in e.nodes && e.nodes[key] == name
  {
  }

  /** Under every pattern of losses, success from a delete means the node is gone; and, unless exactly one
      attempt is configured, being told that it was not there means that it was not. */
  lemma {:induction false} DeleteIsReplaySafe(nodes: Nodes, id: NodeId, max: nat, world: World, i: nat, retried: bool)
    requires i <= max
    ensures var e := Try(nodes, Delete(id), max, world, i, retried);
            && (id !in nodes ==> id !in e.nodes)
            && (e.answer == Some(NoContent) || e.answer == Some(Missing) ==> id !in e.nodes)
            && (e.answer == Some(Missing) && id in nodes ==> e.sends > i + 1)
    decreases max - i
  {
    var req := Delete(id);
    var (after, answer) := Deliver(nodes, req, world(i));
    if i != max && !Final(answer) {
      if i + 1 == max {
        DeleteIsReplaySafe(after, id, max, world, max, retried);
        SendsBounded(after, req, max, world, max, retried);
      } else {
        DeleteIsReplaySafe(after, id, max, world, i + 1, true);
        SendsBounded(after, req, max, world, i + 1, true);
      }
    }
  }

  lemma DeleteMeansGone(nodes: Nodes, id: NodeId, max: nat, world: World)
    ensures var e := Retrying(nodes, Delete(id), max, world);
            && (DeleteResult(e).Ok? ==> id !in e.nodes)
            && (DeleteResult(e) == Err(Absent) && max != 1 ==> id !in nodes)
  {
    DeleteIsReplaySafe(nodes, id, max, world, 0, false);
    if max != 1 { RetriedMeansResent(nodes, Delete(id), max, world, 0, false); }
  }

  /** A delete that is answered finds the node, does not find it, or finds something in it. */
  lemma {:induction false} DeleteAnswers(nodes: Nodes, id: NodeId, max: nat, world: World, i: nat, retried: bool)
    requires i <= max
    ensures var e := Try(nodes, Delete(id), max, world, i, retried);
            && (e.answer == None || e.answer == Some(Busy) || e.answer == Some(NoContent) || e.answer == Some(Missing) || e.answer == Some(Clash))
            && (e.answer == Some(NoContent) ==> id in nodes) && (e.answer == Some(Clash) ==> id in e.nodes)
            && (i < max ==> (e.sends == i + 1 <==> Final(Deliver(nodes, Delete(id), world(i)).1)))
    decreases max - i
  {
    var req := Delete(id);
    var (after, answer) := Deliver(nodes, req, world(i));
    if i != max && !Final(answer) {
      if i + 1 == max {
        DeleteAnswers(after, id, max, world, max, retried);
        SendsBounded(after, req, max, world, max, retried);
      } else {
        DeleteAnswers(after, id, max, world, i + 1, true);
        SendsBounded(after, req, max, world, i + 1, true);
      }
    }
  }

  /** Under every pattern of losses, once a delete has been answered: it reports a directory that is not empty exactly
      if the node is still there, and success exactly if the node is gone and was there before, or was not and the
      first send got no usable answer. */
  lemma DeleteReports(nodes: Nodes, id: NodeId, max: nat, world: World)
    ensures var e := Retrying(nodes, Delete(id), max, world);
            var r := DeleteResult(e);
            && (r == Err(Http) <==> e.answer == None) && (r == Err(Unexpected) <==> e.answer == Some(Busy))
            && (max != 1 && Final(e.answer) ==>
                  && (r == Err(NotEmpty) <==> id in e.nodes)
                  && (r.Ok? <==> id !in e.nodes && (id in nodes || !Final(Deliver(nodes, Delete(id), world(0)).1))))
  {
    DeleteAnswers(nodes, id, max, world, 0, false);
    DeleteIsReplaySafe(nodes, id, max, world, 0, false);
    SendsBounded(nodes, Delete(id), max, world, 0, false);
    if max != 1 { RetriedMeansResent(nodes, Delete(id), max, world, 0, false); }
  }

  /** A delete whose first send is lost succeeds although the node was never there. */
  lemma DeleteOfNothing(id: NodeId)
    ensures var world: World := i => if i == 0 then Turn(RequestLost, false, map[]) else Turn(Answered, false, map[]);
            var e := Retrying(map[], Delete(id), 2, world);
            e.answer == Some(Missing) && DeleteResult(e) == Ok(())
  {
    var world: World := i => if i == 0 then Turn(RequestLost, false, map[]) else Turn(Answered, false, map[]);
    var (after, answer) := Deliver(map[], Delete(id), world(0));
    assert !Final(answer) && after == map[];
    assert Retrying(map[], Delete(id), 2, world) == Try(map[], Delete(id), 2, world, 1, true);
    assert Deliver(map[], Delete(id), world(1)) == (map[], Some(Missing));
  }
}
