/**
 Edges, inquiries and responses of the procurement graph, the consistency
 checker over them, and the buyer-supplier lifecycles that keep it quiet.
 */
module ProcurementGraph {
  import opened Wrappers
  import opened GraphStore

  datatype Edge = Edge(
    edgeId: string,
    projectId: string,
    fromActorId: string,
    toActorId: string,
    edgeType: string,
    inquiryId: Option<string>,
    responseId: Option<string>,
    status: string)

  datatype Inquiry = Inquiry(inquiryId: string, projectId: string, edgeId: string, fromActorId: string, toActorId: string, status: string)

  datatype Response = Response(responseId: string, projectId: string, edgeId: string, inquiryId: Option<string>, fromActorId: string, toActorId: string)

  datatype Graph = Graph(inquiries: Dict<Inquiry>, responses: Dict<Response>, edges: Dict<Edge>)

  /** The columns `update_edge` is given: any but the id; None leaves a column alone. */
  datatype EdgePatch = EdgePatch(
    inquiryId: Option<Option<string>>,
    responseId: Option<Option<string>>,
    status: Option<string>,
    projectId: Option<string> := None,
    fromActorId: Option<string> := None,
    toActorId: Option<string> := None,
    edgeType: Option<string> := None)

  /** A project's columns beside its id, buyer and key. */
  type Columns = map<string, string>

  datatype Issue =
    | InquiryReferencesMissingEdge(inquiryId: string, edgeId: string)
    | ResponseReferencesMissingInquiry(responseId: string, inquiryId: string)
    | EdgeWithoutInquiry(edgeId: string, status: string)
    | EdgeWithoutResponse(edgeId: string)

  /** Set and not the empty string. */
  predicate Truthy(s: Option<string>) {
    s.Some? && s.value != ""
  }

  ghost predicate GraphValid(g: Graph) {
    && Ordered(g.inquiries) && Ordered(g.responses) && Ordered(g.edges)
    && (forall k :: k in g.inquiries.at ==> g.inquiries.at[k].inquiryId == k)
    && (forall k :: k in g.responses.at ==> g.responses.at[k].responseId == k)
    && (forall k :: k in g.edges.at ==> g.edges.at[k].edgeId == k)
  }

  // ---------------------------------------------------------------------
  // The relational conditions
  // ---------------------------------------------------------------------

  predicate EdgeOf(g: Graph, projectId: string, edgeId: string) {
    edgeId in g.edges.at && g.edges.at[edgeId].projectId == projectId
  }

  predicate InquiryOf(g: Graph, projectId: string, inquiryId: string) {
    inquiryId in g.inquiries.at && g.inquiries.at[inquiryId].projectId == projectId
  }

  predicate NeedsInquiry(status: string) {
    status == "SENT" || status == "RESPONDED" || status == "APPROVED"
  }

  predicate EdgeComplete(e: Edge) {
    (NeedsInquiry(e.status) ==> Truthy(e.inquiryId)) && (e.status == "APPROVED" ==> Truthy(e.responseId))
  }

  ghost predicate Consistent(g: Graph, projectId: string) {
    && (forall k :: k in g.inquiries.at && g.inquiries.at[k].projectId == projectId ==>
          EdgeOf(g, projectId, g.inquiries.at[k].edgeId))
    && (forall k :: k in g.responses.at && g.responses.at[k].projectId == projectId && Truthy(g.responses.at[k].inquiryId) ==>
          InquiryOf(g, projectId, g.responses.at[k].inquiryId.value))
    && (forall k :: k in g.edges.at && g.edges.at[k].projectId == projectId ==> EdgeComplete(g.edges.at[k]))
  }

  ghost predicate AllConsistent(g: Graph) {
    forall projectId :: Consistent(g, projectId)
  }

  /** What each reported issue means. */
  ghost predicate IsIssue(g: Graph, projectId: string, issue: Issue) {
    match issue
    case InquiryReferencesMissingEdge(i, e) =>
      InquiryOf(g, projectId, i) && g.inquiries.at[i].edgeId == e && !EdgeOf(g, projectId, e)
    case ResponseReferencesMissingInquiry(r, i) =>
      && r in g.responses.at && g.responses.at[r].projectId == projectId
      && Truthy(g.responses.at[r].inquiryId) && g.responses.at[r].inquiryId.value == i && !InquiryOf(g, projectId, i)
    case EdgeWithoutInquiry(e, status) =>
      EdgeOf(g, projectId, e) && g.edges.at[e].status == status && NeedsInquiry(status) && !Truthy(g.edges.at[e].inquiryId)
    case EdgeWithoutResponse(e) =>
      EdgeOf(g, projectId, e) && g.edges.at[e].status == "APPROVED" && !Truthy(g.edges.at[e].responseId)
  }

  /** Row by row, what is in the report. */
  ghost predicate ReportsRows(g: Graph, projectId: string, issues: seq<Issue>) {
    && (forall e :: e in g.edges.at && g.edges.at[e].projectId == projectId ==>
            var edge := g.edges.at[e];
            && (EdgeWithoutInquiry(e, edge.status) in issues <==>
                  edge.status in ["SENT", "RESPONDED", "APPROVED"] && (edge.inquiryId == None || edge.inquiryId == Some("")))
            && (EdgeWithoutResponse(e) in issues <==>
                  edge.status == "APPROVED" && (edge.responseId == None || edge.responseId == Some(""))))
    && (forall i :: i in g.inquiries.at && g.inquiries.at[i].projectId == projectId ==>
            var e := g.inquiries.at[i].edgeId;
            InquiryReferencesMissingEdge(i, e) in issues <==>
              !(e in g.edges.at && g.edges.at[e].projectId == projectId))
    && (forall k :: k in g.responses.at && g.responses.at[k].projectId == projectId && g.responses.at[k].inquiryId.Some? ==>
            var i := g.responses.at[k].inquiryId.value;
            ResponseReferencesMissingInquiry(k, i) in issues <==>
              i != "" && !(i in g.inquiries.at && g.inquiries.at[i].projectId == projectId))
  }

  lemma IssuesReportRows(g: Graph, projectId: string, issues: seq<Issue>)
    requires forall issue :: issue in issues <==> IsIssue(g, projectId, issue)
    ensures ReportsRows(g, projectId, issues)
  {
  }

  /** No issue at all means exactly that the relational conditions hold. */
  lemma NoIssueMeansConsistent(g: Graph, projectId: string)
    requires GraphValid(g)
    ensures (forall issue :: !IsIssue(g, projectId, issue)) <==> Consistent(g, projectId)
  {
    if forall issue :: !IsIssue(g, projectId, issue) {
      forall k | k in g.inquiries.at && g.inquiries.at[k].projectId == projectId
        ensures EdgeOf(g, projectId, g.inquiries.at[k].edgeId)
      {
        assert !IsIssue(g, projectId, InquiryReferencesMissingEdge(k, g.inquiries.at[k].edgeId));
      }
      forall k | k in g.responses.at && g.responses.at[k].projectId == projectId && Truthy(g.responses.at[k].inquiryId)
        ensures InquiryOf(g, projectId, g.responses.at[k].inquiryId.value)
      {
        assert !IsIssue(g, projectId, ResponseReferencesMissingInquiry(k, g.responses.at[k].inquiryId.value));
      }
      forall k | k in g.edges.at && g.edges.at[k].projectId == projectId
        ensures EdgeComplete(g.edges.at[k])
      {
        assert !IsIssue(g, projectId, EdgeWithoutInquiry(k, g.edges.at[k].status));
        assert !IsIssue(g, projectId, EdgeWithoutResponse(k));
      }
    }
  }

  // ---------------------------------------------------------------------
  // Operations
  // ---------------------------------------------------------------------

  function AddEdge(g: Graph, e: Edge): Graph {
    g.(edges := Put(g.edges, e.edgeId, e))
  }

  function AddInquiry(g: Graph, i: Inquiry): Graph {
    g.(inquiries := Put(g.inquiries, i.inquiryId, i))
  }

  function AddResponse(g: Graph, r: Response): Graph {
    g.(responses := Put(g.responses, r.responseId, r))
  }

  function Given<T>(column: Option<T>, before: T): T {
    if column.Some? then column.value else before
  }

  function Patched(e: Edge, p: EdgePatch): Edge {
    Edge(e.edgeId, Given(p.projectId, e.projectId), Given(p.fromActorId, e.fromActorId), Given(p.toActorId, e.toActorId),
         Given(p.edgeType, e.edgeType), Given(p.inquiryId, e.inquiryId), Given(p.responseId, e.responseId),
         Given(p.status, e.status))
  }

  /** The edge stays in its project, or no inquiry depends on it. */
  ghost predicate MayMove(g: Graph, edgeId: string, p: EdgePatch)
    requires edgeId in g.edges.at
  {
    || Patched(g.edges.at[edgeId], p).projectId == g.edges.at[edgeId].projectId
    || forall i :: i in g.inquiries.at ==> g.inquiries.at[i].edgeId != edgeId
  }

  function PatchEdge(g: Graph, edgeId: string, p: EdgePatch): Graph
    requires edgeId in g.edges.at
  {
    g.(edges := Put(g.edges, edgeId, Patched(g.edges.at[edgeId], p)))
  }

  /** Each given column has the given value, and every other one, like the id, is as before. */
  predicate ColumnsSet(e: Edge, p: EdgePatch, after: Edge) {
    && after.edgeId == e.edgeId
    && after.inquiryId == (if p.inquiryId.Some? then p.inquiryId.value else e.inquiryId)
    && after.responseId == (if p.responseId.Some? then p.responseId.value else e.responseId)
    && after.status == (if p.status.Some? then p.status.value else e.status)
    && after.projectId == (if p.projectId.Some? then p.projectId.value else e.projectId)
    && after.fromActorId == (if p.fromActorId.Some? then p.fromActorId.value else e.fromActorId)
    && after.toActorId == (if p.toActorId.Some? then p.toActorId.value else e.toActorId)
    && after.edgeType == (if p.edgeType.Some? then p.edgeType.value else e.edgeType)
  }

  /** One new row at the end; all others as before. */
  predicate Adds<V(==)>(before: Dict<V>, after: Dict<V>, key: string, row: V) {
    after == Dict(before.keys + [key], before.at[key := row])
  }

  class BMDbAdapter {
    var actors: KeyStore<()>
    var projects: KeyStore<Columns>
    var graph: Graph

    ghost predicate Valid()
      reads this
    {
      IndexValid(actors) && IndexValid(projects) && GraphValid(graph)
    }

    constructor ()
      ensures Valid() && actors == Empty() && projects == Empty()
      ensures graph == EmptyGraph()
    {
      actors, projects := Empty(), Empty();
      graph := EmptyGraph();
    }

    method GetOrCreateActor(name: string, actorType: string, freshId: string) returns (actor: Row<()>)
      requires Valid() && freshId !in actors.rows.at
      modifies this`actors
      ensures Valid()
      ensures actors == StoreAfter(old(actors), Request(name, actorType, (), freshId))
      ensures actor == RowReturned(old(actors), Request(name, actorType, (), freshId))
      ensures if name + ":" + actorType in old(actors).index
              then actors == old(actors) && actor == actors.rows.at[old(actors).index[name + ":" + actorType]]
              else actor == Row(freshId, name, actorType, ()) && Adds(old(actors).rows, actors.rows, freshId, actor)
    {
      var key := JoinKey(name, actorType);
      IndexStaysValid(actors, Request(name, actorType, (), freshId));
      if key !in actors.index {
        actors := KeyStore(Put(actors.rows, freshId, Row(freshId, name, actorType, ())), actors.index[key := freshId]);
      }
      actor := actors.rows.at[actors.index[key]];
    }

    /** A new project has the status CREATED unless the given columns say otherwise. */
    method GetOrCreateProject(buyerActorId: string, projectKey: string, columns: Columns, freshId: string)
      returns (project: Row<Columns>)
      requires Valid() && freshId !in projects.rows.at
      requires "project_id" !in columns && "product_summary" !in columns
      modifies this`projects
      ensures Valid()
      ensures projects == StoreAfter(old(projects), Request(buyerActorId, projectKey, map["status" := "CREATED"] + columns, freshId))
      ensures project == RowReturned(old(projects), Request(buyerActorId, projectKey, map["status" := "CREATED"] + columns, freshId))
      ensures if buyerActorId + ":" + projectKey in old(projects).index
              then projects == old(projects) && project == projects.rows.at[old(projects).index[buyerActorId + ":" + projectKey]]
              else
                && project == Row(freshId, buyerActorId, projectKey, map["status" := "CREATED"] + columns)
                && Adds(old(projects).rows, projects.rows, freshId, project)
    {
      var key := JoinKey(buyerActorId, projectKey);
      var stored: Columns := map["status" := "CREATED"] + columns;
      IndexStaysValid(projects, Request(buyerActorId, projectKey, stored, freshId));
      if key !in projects.index {
        projects := KeyStore(Put(projects.rows, freshId, Row(freshId, buyerActorId, projectKey, stored)),
                             projects.index[key := freshId]);
      }
      project := projects.rows.at[projects.index[key]];
    }

    method CreateEdge(e: Edge)
      requires Valid() && e.edgeId !in graph.edges.at
      modifies this`graph
      ensures Valid() && graph == AddEdge(old(graph), e)
      ensures Adds(old(graph).edges, graph.edges, e.edgeId, e)
      ensures graph.inquiries == old(graph).inquiries && graph.responses == old(graph).responses
      ensures AllConsistent(old(graph)) ==> (AllConsistent(graph) <==> EdgeComplete(e))
    {
      AddEdgeKeepsExactly(graph, e);
      graph := graph.(edges := Put(graph.edges, e.edgeId, e));
    }

    method CreateInquiry(i: Inquiry)
      requires Valid() && i.inquiryId !in graph.inquiries.at
      modifies this`graph
      ensures Valid() && graph == AddInquiry(old(graph), i)
      ensures Adds(old(graph).inquiries, graph.inquiries, i.inquiryId, i)
      ensures graph.edges == old(graph).edges && graph.responses == old(graph).responses
      ensures AllConsistent(old(graph)) ==> (AllConsistent(graph) <==> EdgeOf(old(graph), i.projectId, i.edgeId))
    {
      AddInquiryKeepsExactly(graph, i);
      graph := graph.(inquiries := Put(graph.inquiries, i.inquiryId, i));
    }

    method CreateResponse(r: Response)
      requires Valid() && r.responseId !in graph.responses.at
      modifies this`graph
      ensures Valid() && graph == AddResponse(old(graph), r)
      ensures Adds(old(graph).responses, graph.responses, r.responseId, r)
      ensures graph.edges == old(graph).edges && graph.inquiries == old(graph).inquiries
      ensures AllConsistent(old(graph)) ==>
                (AllConsistent(graph) <==> (Truthy(r.inquiryId) ==> InquiryOf(old(graph), r.projectId, r.inquiryId.value)))
    {
      AddResponseKeepsExactly(graph, r);
      graph := graph.(responses := Put(graph.responses, r.responseId, r));
    }

    /** Sets the given columns one after the other. */
    method SetColumns(e: Edge, p: EdgePatch) returns (edge: Edge)
      ensures edge == Patched(e, p) && ColumnsSet(e, p, edge)
    {
      edge := e;
      if p.inquiryId.Some? {
        edge := edge.(inquiryId := p.inquiryId.value);
      }
      if p.responseId.Some? {
        edge := edge.(responseId := p.responseId.value);
      }
      if p.status.Some? {
        edge := edge.(status := p.status.value);
      }
      if p.projectId.Some? {
        edge := edge.(projectId := p.projectId.value);
      }
      if p.fromActorId.Some? {
        edge := edge.(fromActorId := p.fromActorId.value);
      }
      if p.toActorId.Some? {
        edge := edge.(toActorId := p.toActorId.value);
      }
      if p.edgeType.Some? {
        edge := edge.(edgeType := p.edgeType.value);
      }
    }

    /** Fails, changing nothing, for an unknown edge. */
    method UpdateEdge(edgeId: string, p: EdgePatch) returns (r: Result<Edge, string>)
      requires Valid()
      modifies this`graph
      ensures Valid()
      ensures r.Success? <==> edgeId in old(graph).edges.at
      ensures r.Failure? ==> graph == old(graph)
      ensures r.Success? ==> graph == PatchEdge(old(graph), edgeId, p) && r.value == graph.edges.at[edgeId]
      ensures r.Success? ==>
                && ColumnsSet(old(graph).edges.at[edgeId], p, r.value)
                && graph.edges == Dict(old(graph).edges.keys, old(graph).edges.at[edgeId := r.value])
                && graph.inquiries == old(graph).inquiries && graph.responses == old(graph).responses
      ensures r.Success? && AllConsistent(old(graph)) ==>
                (AllConsistent(graph) <==> EdgeComplete(r.value) && MayMove(old(graph), edgeId, p))
    {
      if edgeId !in graph.edges.at {
        return Failure("KeyError");
      }
      PatchEdgeKeepsExactly(graph, edgeId, p);
      var edge := SetColumns(graph.edges.at[edgeId], p);
      graph := graph.(edges := Put(graph.edges, edgeId, edge));
      r := Success(edge);
    }

    /** The inquiries of the project whose edge is missing or belongs to another project. */
    method DanglingInquiries(projectId: string) returns (issues: seq<Issue>)
      requires Valid()
      ensures forall issue :: issue in issues <==> IsIssue(graph, projectId, issue) && issue.InquiryReferencesMissingEdge?
    {
      issues := [];
      for n := 0 to |graph.inquiries.keys|
        invariant forall issue :: issue in issues <==>
                    IsIssue(graph, projectId, issue) && issue.InquiryReferencesMissingEdge?
                    && issue.inquiryId in graph.inquiries.keys[..n]
      {
        var inq := graph.inquiries.at[graph.inquiries.keys[n]];
        if inq.projectId == projectId && !EdgeOf(graph, projectId, inq.edgeId) {
          issues := issues + [InquiryReferencesMissingEdge(inq.inquiryId, inq.edgeId)];
        }
      }
    }

    /** The responses of the project that name an inquiry which is not there. */
    method DanglingResponses(projectId: string) returns (issues: seq<Issue>)
      requires Valid()
      ensures forall issue :: issue in issues <==> IsIssue(graph, projectId, issue) && issue.ResponseReferencesMissingInquiry?
    {
      issues := [];
      for n := 0 to |graph.responses.keys|
        invariant forall issue :: issue in issues <==>
                    IsIssue(graph, projectId, issue) && issue.ResponseReferencesMissingInquiry?
                    && issue.responseId in graph.responses.keys[..n]
      {
        var resp := graph.responses.at[graph.responses.keys[n]];
        if resp.projectId == projectId && Truthy(resp.inquiryId) && !InquiryOf(graph, projectId, resp.inquiryId.value) {
          issues := issues + [ResponseReferencesMissingInquiry(resp.responseId, resp.inquiryId.value)];
        }
      }
    }

    /** The edges of the project whose status calls for a reference they lack. */
    method IncompleteEdges(projectId: string) returns (issues: seq<Issue>)
      requires Valid()
      ensures forall issue :: issue in issues <==>
                IsIssue(graph, projectId, issue) && (issue.EdgeWithoutInquiry? || issue.EdgeWithoutResponse?)
    {
      issues := [];
      for n := 0 to |graph.edges.keys|
        invariant forall issue :: issue in issues <==>
                    IsIssue(graph, projectId, issue) && (issue.EdgeWithoutInquiry? || issue.EdgeWithoutResponse?)
                    && issue.edgeId in graph.edges.keys[..n]
      {
        var edge := graph.edges.at[graph.edges.keys[n]];
        if edge.projectId == projectId {
          if NeedsInquiry(edge.status) && !Truthy(edge.inquiryId) {
            issues := issues + [EdgeWithoutInquiry(edge.edgeId, edge.status)];
          }
          if edge.status == "APPROVED" && !Truthy(edge.responseId) {
            issues := issues + [EdgeWithoutResponse(edge.edgeId)];
          }
        }
      }
    }

    /** The checker reports exactly the violations of the project, so its list is
        empty exactly when the relational conditions hold. */
    method CheckGraphConsistency(projectId: string) returns (issues: seq<Issue>)
      requires Valid()
      ensures forall issue :: issue in issues <==> IsIssue(graph, projectId, issue)
      ensures issues == [] <==> Consistent(graph, projectId)
      ensures ReportsRows(graph, projectId, issues)
    {
      var ofInquiries := DanglingInquiries(projectId);
      var ofResponses := DanglingResponses(projectId);
      var ofEdges := IncompleteEdges(projectId);
      issues := ofInquiries + ofResponses + ofEdges;
      NoIssueMeansConsistent(graph, projectId);
      IssuesReportRows(graph, projectId, issues);
      assert issues != [] ==> issues[0] in issues;
    }
  }

  // ---------------------------------------------------------------------
  // Each operation keeps every project consistent under exactly one condition
  // ---------------------------------------------------------------------

  lemma AddEdgeKeepsExactly(g: Graph, e: Edge)
    requires GraphValid(g) && e.edgeId !in g.edges.at
    ensures GraphValid(AddEdge(g, e))
    ensures AllConsistent(g) ==> (AllConsistent(AddEdge(g, e)) <==> EdgeComplete(e))
  {
    var t := AddEdge(g, e);
    assert t.edges.at[e.edgeId] == e;
    if AllConsistent(g) {
      if EdgeComplete(e) {
        forall p ensures Consistent(t, p) {
          assert Consistent(g, p);
        }
      } else {
        assert !Consistent(t, e.projectId);
      }
    }
  }

  lemma AddInquiryKeepsExactly(g: Graph, i: Inquiry)
    requires GraphValid(g) && i.inquiryId !in g.inquiries.at
    ensures GraphValid(AddInquiry(g, i))
    ensures AllConsistent(g) ==> (AllConsistent(AddInquiry(g, i)) <==> EdgeOf(g, i.projectId, i.edgeId))
  {
    var t := AddInquiry(g, i);
    assert t.inquiries.at[i.inquiryId] == i;
    if AllConsistent(g) {
      if EdgeOf(g, i.projectId, i.edgeId) {
        forall p ensures Consistent(t, p) {
          assert Consistent(g, p);
        }
      } else {
        assert !Consistent(t, i.projectId);
      }
    }
  }

  lemma AddResponseKeepsExactly(g: Graph, r: Response)
    requires GraphValid(g) && r.responseId !in g.responses.at
    ensures GraphValid(AddResponse(g, r))
    ensures AllConsistent(g) ==>
              (AllConsistent(AddResponse(g, r)) <==> (Truthy(r.inquiryId) ==> InquiryOf(g, r.projectId, r.inquiryId.value)))
  {
    var t := AddResponse(g, r);
    assert t.responses.at[r.responseId] == r;
    if AllConsistent(g) {
      if Truthy(r.inquiryId) ==> InquiryOf(g, r.projectId, r.inquiryId.value) {
        forall p ensures Consistent(t, p) {
          assert Consistent(g, p);
        }
      } else {
        assert !Consistent(t, r.projectId);
      }
    }
  }

  lemma PatchEdgeKeepsExactly(g: Graph, edgeId: string, p: EdgePatch)
    requires GraphValid(g) && edgeId in g.edges.at
    ensures GraphValid(PatchEdge(g, edgeId, p))
    ensures AllConsistent(g) ==>
              (AllConsistent(PatchEdge(g, edgeId, p)) <==>
                 EdgeComplete(Patched(g.edges.at[edgeId], p)) && MayMove(g, edgeId, p))
  {
    var t, e, before := PatchEdge(g, edgeId, p), Patched(g.edges.at[edgeId], p), g.edges.at[edgeId].projectId;
    assert t.edges.at[edgeId] == e;
    if AllConsistent(g) {
      assert Consistent(g, before);
      if EdgeComplete(e) && MayMove(g, edgeId, p) {
        forall q ensures Consistent(t, q) {
          assert Consistent(g, q);
        }
      } else if !EdgeComplete(e) {
        assert !Consistent(t, e.projectId);
      } else {
        var i :| i in g.inquiries.at && g.inquiries.at[i].edgeId == edgeId;
        assert Consistent(g, g.inquiries.at[i].projectId);
        assert !Consistent(t, before);
      }
    }
  }

  // ---------------------------------------------------------------------
  // Interleaved lifecycles
  // ---------------------------------------------------------------------

  /** What one buyer-supplier conversation has done so far. */
  datatype Life = Life(
    projectId: string,
    buyer: string,
    supplier: string,
    edgeId: string,
    inquiry: Option<string>,
    sent: bool,
    response: Option<string>,
    answered: bool)

  /** The steps of a lifecycle, in the order its guards allow; a quote may be
      answered and revised any number of times. */
  datatype LifeStep =
    | Open(projectId: string, buyer: string, supplier: string, edgeId: string)
    | Ask(life: nat, inquiryId: string)
    | Send(life: nat)
    | Quote(life: nat, responseId: string)
    | LinkQuote(life: nat, advance: Option<string>)
    | Approve(life: nat)

  datatype Board = Board(graph: Graph, lives: seq<Life>)

  function SetLife(b: Board, n: nat, graph: Graph, life: Life): Board
    requires n < |b.lives|
  {
    Board(graph, b.lives[n := life])
  }

  predicate Allowed(b: Board, step: LifeStep) {
    match step
    case Open(_, _, _, e) => e != "" && e !in b.graph.edges.at
    case Ask(n, i) => n < |b.lives| && b.lives[n].inquiry.None? && i != "" && i !in b.graph.inquiries.at
    case Send(n) => n < |b.lives| && b.lives[n].inquiry.Some? && !b.lives[n].sent
    case Quote(n, r) => n < |b.lives| && b.lives[n].sent && r != "" && r !in b.graph.responses.at
    case LinkQuote(n, advance) =>
      n < |b.lives| && b.lives[n].response.Some? && (advance.Some? ==> advance.value in ["RESPONDED", "APPROVED"])
    case Approve(n) => n < |b.lives| && b.lives[n].answered
  }

  function DoLife(b: Board, step: LifeStep): Board
    requires BoardValid(b)
  {
    if !Allowed(b, step) then b
    else
      match step
      case Open(p, buyer, supplier, e) =>
        Board(AddEdge(b.graph, Edge(e, p, buyer, supplier, "BUYER_TO_MAIN_SUPPLIER", None, None, "DRAFT")),
              b.lives + [Life(p, buyer, supplier, e, None, false, None, false)])
      case Ask(n, i) =>
        var l := b.lives[n];
        SetLife(b, n, AddInquiry(b.graph, Inquiry(i, l.projectId, l.edgeId, l.buyer, l.supplier, "SENT")), l.(inquiry := Some(i)))
      case Send(n) =>
        var l := b.lives[n];
        SetLife(b, n, PatchEdge(b.graph, l.edgeId, EdgePatch(Some(l.inquiry), None, Some("SENT"))), l.(sent := true))
      case Quote(n, r) =>
        var l := b.lives[n];
        SetLife(b, n, AddResponse(b.graph, Response(r, l.projectId, l.edgeId, l.inquiry, l.supplier, l.buyer)), l.(response := Some(r)))
      case LinkQuote(n, advance) =>
        var l := b.lives[n];
        SetLife(b, n, PatchEdge(b.graph, l.edgeId, EdgePatch(None, Some(l.response), advance)), l.(answered := true))
      case Approve(n) =>
        var l := b.lives[n];
        SetLife(b, n, PatchEdge(b.graph, l.edgeId, EdgePatch(None, None, Some("APPROVED"))), l)
  }

  /** What a lifecycle has done is visible on its edge. */
  ghost predicate LifeValid(g: Graph, l: Life) {
    && EdgeOf(g, l.projectId, l.edgeId)
    && (l.inquiry.Some? ==> l.inquiry.value != "" && InquiryOf(g, l.projectId, l.inquiry.value))
    && (l.sent ==> l.inquiry.Some? && Truthy(g.edges.at[l.edgeId].inquiryId))
    && (l.response.Some? ==> l.response.value != "" && l.sent)
    && (l.answered ==> l.response.Some? && Truthy(g.edges.at[l.edgeId].responseId))
  }

  ghost predicate BoardValid(b: Board) {
    && GraphValid(b.graph) && AllConsistent(b.graph)
    && forall n :: 0 <= n < |b.lives| ==> LifeValid(b.graph, b.lives[n])
  }

  /** Links and rows are never taken back. */
  ghost predicate Extends(g: Graph, t: Graph) {
    && (forall p, e :: EdgeOf(g, p, e) ==>
          && EdgeOf(t, p, e)
          && (Truthy(g.edges.at[e].inquiryId) ==> Truthy(t.edges.at[e].inquiryId))
          && (Truthy(g.edges.at[e].responseId) ==> Truthy(t.edges.at[e].responseId)))
    && (forall p, i :: InquiryOf(g, p, i) ==> InquiryOf(t, p, i))
  }

  lemma LifeSurvives(g: Graph, t: Graph, l: Life)
    requires Extends(g, t) && LifeValid(g, l)
    ensures LifeValid(t, l)
  {
  }

  lemma PatchExtends(g: Graph, edgeId: string, p: EdgePatch)
    requires edgeId in g.edges.at
    requires p.projectId.None? && (p.inquiryId.Some? ==> Truthy(p.inquiryId.value)) && (p.responseId.Some? ==> Truthy(p.responseId.value))
    ensures Extends(g, PatchEdge(g, edgeId, p))
  {
  }

  lemma StepExtends(b: Board, step: LifeStep)
    requires BoardValid(b) && Allowed(b, step)
    ensures Extends(b.graph, DoLife(b, step).graph)
  {
    match step
    case Open(_, _, _, _) =>
    case Ask(_, _) =>
    case Quote(_, _) =>
    case Send(n) =>
      assert LifeValid(b.graph, b.lives[n]);
      PatchExtends(b.graph, b.lives[n].edgeId, EdgePatch(Some(b.lives[n].inquiry), None, Some("SENT")));
    case LinkQuote(n, advance) =>
      assert LifeValid(b.graph, b.lives[n]);
      PatchExtends(b.graph, b.lives[n].edgeId, EdgePatch(None, Some(b.lives[n].response), advance));
    case Approve(n) =>
      PatchExtends(b.graph, b.lives[n].edgeId, EdgePatch(None, None, Some("APPROVED")));
  }

  /** The lifecycle that moved is as its step left it. */
  lemma MoverValid(b: Board, step: LifeStep)
    requires BoardValid(b) && Allowed(b, step)
    ensures var t := DoLife(b, step);
            if step.Open? then LifeValid(t.graph, t.lives[|b.lives|]) else LifeValid(t.graph, t.lives[step.life])
  {
    if !step.Open? {
      assert LifeValid(b.graph, b.lives[step.life]);
    }
  }

  lemma LifeStepKeepsValid(b: Board, step: LifeStep)
    requires BoardValid(b)
    ensures BoardValid(DoLife(b, step))
  {
    if Allowed(b, step) {
      var t := DoLife(b, step);
      GraphStepKeepsConsistent(b, step);
      StepExtends(b, step);
      MoverValid(b, step);
      forall n | 0 <= n < |b.lives|
        ensures LifeValid(t.graph, b.lives[n])
      {
        LifeSurvives(b.graph, t.graph, b.lives[n]);
      }
    }
  }

  lemma GraphStepKeepsConsistent(b: Board, step: LifeStep)
    requires BoardValid(b) && Allowed(b, step)
    ensures GraphValid(DoLife(b, step).graph) && AllConsistent(DoLife(b, step).graph)
  {
    match step
    case Open(p, buyer, supplier, e) =>
      AddEdgeKeepsExactly(b.graph, Edge(e, p, buyer, supplier, "BUYER_TO_MAIN_SUPPLIER", None, None, "DRAFT"));
    case Ask(n, i) =>
      var l := b.lives[n];
      AddInquiryKeepsExactly(b.graph, Inquiry(i, l.projectId, l.edgeId, l.buyer, l.supplier, "SENT"));
    case Send(n) =>
      PatchEdgeKeepsExactly(b.graph, b.lives[n].edgeId, EdgePatch(Some(b.lives[n].inquiry), None, Some("SENT")));
    case Quote(n, r) =>
      var l := b.lives[n];
      AddResponseKeepsExactly(b.graph, Response(r, l.projectId, l.edgeId, l.inquiry, l.supplier, l.buyer));
    case LinkQuote(n, advance) =>
      var l := b.lives[n];
      assert Consistent(b.graph, l.projectId);
      PatchEdgeKeepsExactly(b.graph, l.edgeId, EdgePatch(None, Some(l.response), advance));
    case Approve(n) =>
      PatchEdgeKeepsExactly(b.graph, b.lives[n].edgeId, EdgePatch(None, None, Some("APPROVED")));
  }

  ghost function Boards(b: Board, steps: seq<LifeStep>): (t: Board)
    requires BoardValid(b)
    ensures BoardValid(t)
  {
    if steps == [] then b
    else
      var before := Boards(b, steps[..|steps| - 1]);
      LifeStepKeepsValid(before, steps[|steps| - 1]);
      DoLife(before, steps[|steps| - 1])
  }

  // ---------------------------------------------------------------------
  // What the steps of a lifecycle leave on its edge
  // ---------------------------------------------------------------------

  /** Each step has its effect: the new row, the link and the status it stands for. */
  lemma LifeStepTakesEffect(b: Board, step: LifeStep)
    requires BoardValid(b) && Allowed(b, step)
    ensures var t := DoLife(b, step).graph;
            match step
            case Open(p, buyer, supplier, e) =>
              EdgeOf(t, p, e) && t.edges.at[e].status == "DRAFT" && t.edges.at[e].fromActorId == buyer && t.edges.at[e].toActorId == supplier
            case Ask(n, i) => InquiryOf(t, b.lives[n].projectId, i) && t.inquiries.at[i].edgeId == b.lives[n].edgeId
            case Send(n) =>
              var edge := t.edges.at[b.lives[n].edgeId];
              edge.status == "SENT" && edge.inquiryId == b.lives[n].inquiry
            case Quote(n, r) => r in t.responses.at && t.responses.at[r].inquiryId == b.lives[n].inquiry
            case LinkQuote(n, advance) =>
              var edge := t.edges.at[b.lives[n].edgeId];
              edge.responseId == b.lives[n].response && (advance.Some? ==> edge.status == advance.value)
            case Approve(n) => t.edges.at[b.lives[n].edgeId].status == "APPROVED"
  {
    if !step.Open? {
      assert LifeValid(b.graph, b.lives[step.life]);
    }
  }

  /** The status of lifecycle `n` after a step, when it was `before`. */
  function StatusAfter(b: Board, step: LifeStep, n: nat, before: string): string {
    if !Allowed(b, step) then before
    else
      match step
      case Open(_, _, _, _) => if n == |b.lives| then "DRAFT" else before
      case Send(m) => if m == n then "SENT" else before
      case LinkQuote(m, advance) => if m == n && advance.Some? then advance.value else before
      case Approve(m) => if m == n then "APPROVED" else before
      case _ => before
  }

  /** The status that the steps of lifecycle `n` ask for, the last one first. */
  ghost function LastStatus(steps: seq<LifeStep>, n: nat): string {
    if steps == [] then ""
    else
      StatusAfter(Boards(StartBoard(), steps[..|steps| - 1]), steps[|steps| - 1], n, LastStatus(steps[..|steps| - 1], n))
  }

  ghost predicate HasStatus(b: Board, n: nat, status: string) {
    && n < |b.lives| && b.lives[n].edgeId in b.graph.edges.at
    && b.graph.edges.at[b.lives[n].edgeId].status == status
  }

  ghost predicate EdgesApart(b: Board) {
    forall m, n :: 0 <= m < n < |b.lives| ==> b.lives[m].edgeId != b.lives[n].edgeId
  }

  /** Lifecycles stay where they are on their edges; only opening adds one. */
  lemma LivesKeepEdges(b: Board, step: LifeStep)
    requires BoardValid(b)
    ensures |DoLife(b, step).lives| == |b.lives| + if step.Open? && Allowed(b, step) then 1 else 0
    ensures forall n :: 0 <= n < |b.lives| ==> DoLife(b, step).lives[n].edgeId == b.lives[n].edgeId
    ensures step.Open? && Allowed(b, step) ==> DoLife(b, step).lives[|b.lives|].edgeId == step.edgeId
  {
  }

  lemma StepKeepsApart(b: Board, step: LifeStep)
    requires BoardValid(b) && EdgesApart(b)
    ensures EdgesApart(DoLife(b, step))
  {
    LivesKeepEdges(b, step);
    forall n | 0 <= n < |b.lives|
      ensures b.lives[n].edgeId in b.graph.edges.at
    {
      assert LifeValid(b.graph, b.lives[n]);
    }
  }

  /** A step leaves the status of every edge alone but that of its own lifecycle. */
  lemma OtherEdgesKeepStatus(b: Board, step: LifeStep, n: nat)
    requires BoardValid(b) && EdgesApart(b) && n < |b.lives|
    requires step.Open? || step.Ask? || step.Quote? || step.life != n || (step.LinkQuote? && step.advance.None?) || !Allowed(b, step)
    ensures var e := b.lives[n].edgeId;
            && e in b.graph.edges.at && e in DoLife(b, step).graph.edges.at
            && DoLife(b, step).graph.edges.at[e].status == b.graph.edges.at[e].status
  {
    assert LifeValid(b.graph, b.lives[n]);
    if Allowed(b, step) && !step.Open? {
      assert LifeValid(b.graph, b.lives[step.life]);
      assert step.life != n ==> b.lives[step.life].edgeId != b.lives[n].edgeId;
    }
  }

  lemma StatusStep(b: Board, step: LifeStep, n: nat, before: string)
    requires BoardValid(b) && EdgesApart(b) && n < |DoLife(b, step).lives|
    requires n < |b.lives| ==> HasStatus(b, n, before)
    ensures HasStatus(DoLife(b, step), n, StatusAfter(b, step, n, before))
  {
    LivesKeepEdges(b, step);
    if n == |b.lives| || (Allowed(b, step) && (step.Send? || step.Approve? || (step.LinkQuote? && step.advance.Some?)) && step.life == n) {
      LifeStepTakesEffect(b, step);
      MoverValid(b, step);
    } else {
      OtherEdgesKeepStatus(b, step, n);
    }
  }

  /** Over any interleaving, the edge of each lifecycle has the status that the
      lifecycle's own last step asked for: SENT after sending, the advanced value
      after linking a quote, APPROVED after approving. */
  lemma {:induction false} EdgeHasLastStatus(steps: seq<LifeStep>, n: nat)
    requires n < |Boards(StartBoard(), steps).lives|
    ensures HasStatus(Boards(StartBoard(), steps), n, LastStatus(steps, n))
  {
    if steps != [] {
      var init, step := steps[..|steps| - 1], steps[|steps| - 1];
      var b := Boards(StartBoard(), init);
      BoardsApart(init);
      if n < |b.lives| {
        EdgeHasLastStatus(init, n);
      }
      StatusStep(b, step, n, LastStatus(init, n));
    }
  }

  lemma {:induction false} BoardsApart(steps: seq<LifeStep>)
    ensures EdgesApart(Boards(StartBoard(), steps))
  {
    if steps != [] {
      BoardsApart(steps[..|steps| - 1]);
      StepKeepsApart(Boards(StartBoard(), steps[..|steps| - 1]), steps[|steps| - 1]);
    }
  }

  function StartBoard(): (b: Board)
    ensures BoardValid(b)
  {
    Board(EmptyGraph(), [])
  }

  function EmptyGraph(): Graph {
    Graph(Dict([], map[]), Dict([], map[]), Dict([], map[]))
  }

  /** However any number of lifecycles interleave, and however often quotes are
      revised, the checker has nothing to report for any project at any point. */
  lemma LifecyclesStayConsistent(steps: seq<LifeStep>, projectId: string)
    ensures forall issue :: !IsIssue(Boards(StartBoard(), steps).graph, projectId, issue)
  {
    var t := Boards(StartBoard(), steps);
    NoIssueMeansConsistent(t.graph, projectId);
  }
}
