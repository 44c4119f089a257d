/** The compliance matrix and the export gate over it. */
module Compliance {
  import opened Outcomes
  import opened Sequences

  datatype Requirement = Requirement(id: string, text: string, category: string, critical: bool)

  /** Times are milliseconds; `state` is one of active, expiring, restricted and archived. */
  datatype EvidenceDoc = EvidenceDoc(id: string, documentType: string, state: string, expiresAt: Option<int>)

  datatype ItemStatus = Missing | Partial | Satisfied | Overridden
  datatype Risk = Low | Medium | High | Critical

  datatype Item = Item(
    requirementId: string, requirementText: string, category: string, evidenceDocId: Option<string>,
    owner: string, dueDate: Option<string>, risk: Risk, status: ItemStatus)

  datatype Matrix = Matrix(tenderId: string, version: int, generatedAt: int, items: seq<Item>)

  datatype Rule = Rule(docType: string, owner: string)

  function RuleOf(category: string): Rule {
    match category
    case "legal" => Rule("legal", "DocController")
    case "financial" => Rule("financial", "Finance")
    case "technical" => Rule("technical", "Presales")
    case "admin" => Rule("admin", "BidManager")
    case _ => Rule("other", "BidManager")
  }

  predicate Candidate(rule: Rule, d: EvidenceDoc) {
    d.documentType == rule.docType && d.state != "restricted"
  }

  predicate InForce(d: EvidenceDoc, now: int) {
    d.state != "archived" && (d.expiresAt.None? || d.expiresAt.value > now)
  }

  predicate HasExpired(d: EvidenceDoc, now: int) {
    d.expiresAt.Some? && d.expiresAt.value <= now
  }

  function BuildItem(req: Requirement, vault: seq<EvidenceDoc>, now: int, dueDate: Option<string>): Item {
    var rule := RuleOf(req.category);
    var candidates := Filter(vault, d => Candidate(rule, d));
    var active := Find(candidates, d => InForce(d, now));
    var expired := Find(candidates, d => HasExpired(d, now));
    var (status, evidence) :=
      if active.Some? then (Satisfied, Some(active.value.id))
      else if expired.Some? then (Partial, Some(expired.value.id))
      else (Missing, None);
    var risk :=
      if status == Satisfied then Low
      else if status == Partial then Medium
      else if req.critical then Critical
      else High;
    Item(req.id, req.text, req.category, evidence, rule.owner, dueDate, risk, status)
  }

  function GenerateMatrix(tenderId: string, requirements: seq<Requirement>, vault: seq<EvidenceDoc>,
                          now: int, dueDate: Option<string>, previousVersion: int): Matrix
  {
    Matrix(tenderId, previousVersion + 1, now, Map(requirements, req => BuildItem(req, vault, now, dueDate)))
  }

  predicate Blocks(i: Item, overridden: seq<string>) {
    i.risk == Critical && i.status != Satisfied && i.requirementId !in overridden
  }

  datatype Gate = Gate(allowed: bool, blocking: seq<Item>)

  function ExportGate(matrix: Matrix, overridden: seq<string>): Gate {
    var blocking := Filter(matrix.items, i => Blocks(i, overridden));
    Gate(|blocking| == 0, blocking)
  }

  datatype Task = Task(title: string, owner: string, dueDate: Option<string>, severity: Risk, requirementId: string)

  function DeriveTasks(matrix: Matrix): seq<Task> {
    Map(Filter(matrix.items, (i: Item) => i.status != Satisfied && i.status != Overridden),
        (i: Item) => Task("Provide evidence: " + i.requirementText, i.owner, i.dueDate, i.risk, i.requirementId))
  }

  // ----- What an item's status means -----

  /** Evidence of the right type that is in force, or that has run out: either keeps the gate open. */
  predicate Covers(d: EvidenceDoc, req: Requirement, now: int) {
    && d.documentType == RuleOf(req.category).docType
    && d.state != "restricted"
    && (d.state != "archived" || HasExpired(d, now))
  }

  ghost predicate Covered(req: Requirement, vault: seq<EvidenceDoc>, now: int) {
    exists d :: d in vault && Covers(d, req, now)
  }

  ghost predicate Evidenced(req: Requirement, vault: seq<EvidenceDoc>, now: int) {
    exists d :: d in vault && Candidate(RuleOf(req.category), d) && InForce(d, now)
  }

  const OWNERS := map["legal" := "DocController", "financial" := "Finance", "technical" := "Presales",
                      "admin" := "BidManager"]

  /** A known category is evidenced by documents of its own name and has its own owner; others share one rule. */
  lemma RuleMeaning(category: string)
    ensures RuleOf(category)
         == if category in OWNERS then Rule(category, OWNERS[category]) else Rule("other", "BidManager")
  {}

  lemma ItemStatusMeaning(req: Requirement, vault: seq<EvidenceDoc>, now: int, dueDate: Option<string>)
    ensures var i := BuildItem(req, vault, now, dueDate);
            && (i.status == Satisfied <==> Evidenced(req, vault, now))
            && (i.status == Missing <==> !Covered(req, vault, now))
            && i.status != Overridden
            && (i.risk == Critical <==> req.critical && i.status == Missing)
            && (i.risk == High <==> !req.critical && i.status == Missing)
            && (i.risk == Medium <==> i.status == Partial) && (i.risk == Low <==> i.status == Satisfied)
            && i.requirementId == req.id && i.requirementText == req.text && i.category == req.category
            && i.owner == RuleOf(req.category).owner && i.dueDate == dueDate
            && (i.evidenceDocId.Some? ==>
                  exists d :: d in vault && Covers(d, req, now) && d.id == i.evidenceDocId.value)
            && (i.evidenceDocId.None? <==> i.status == Missing)
  {
    var rule := RuleOf(req.category);
    FilterMembers(vault, d => Candidate(rule, d));
    var candidates := Filter(vault, d => Candidate(rule, d));
    forall d | d in vault && Covers(d, req, now)
      ensures d in candidates && (InForce(d, now) || HasExpired(d, now))
    {}
  }

  /** The cited document is the first in vault order that is in force, or else the first that has expired. */
  lemma EvidenceIsFirst(req: Requirement, vault: seq<EvidenceDoc>, now: int, dueDate: Option<string>)
    ensures var i := BuildItem(req, vault, now, dueDate);
            var rule := RuleOf(req.category);
            && (i.status == Satisfied ==>
                  exists k :: IsFirst(vault, k, d => Candidate(rule, d) && InForce(d, now))
                    && i.evidenceDocId == Some(vault[k].id))
            && (i.status == Partial ==>
                  exists k :: IsFirst(vault, k, d => Candidate(rule, d) && HasExpired(d, now))
                    && i.evidenceDocId == Some(vault[k].id))
  {
    var rule := RuleOf(req.category);
    var inForce := (d: EvidenceDoc) => Candidate(rule, d) && InForce(d, now);
    var hasExpired := (d: EvidenceDoc) => Candidate(rule, d) && HasExpired(d, now);
    FindInFiltered(vault, d => Candidate(rule, d), d => InForce(d, now), inForce);
    FindInFiltered(vault, d => Candidate(rule, d), d => HasExpired(d, now), hasExpired);
    var i := BuildItem(req, vault, now, dueDate);
    if i.status == Satisfied {
      var k := FindIsFirst(vault, inForce);
      assert IsFirst(vault, k, d => Candidate(rule, d) && InForce(d, now));
    } else if i.status == Partial {
      var k := FindIsFirst(vault, hasExpired);
      assert IsFirst(vault, k, d => Candidate(rule, d) && HasExpired(d, now));
    }
  }

  // ----- The gate -----

  ghost predicate Uncovered(req: Requirement, vault: seq<EvidenceDoc>, now: int, overridden: seq<string>) {
    req.critical && req.id !in overridden && !Covered(req, vault, now)
  }

  function Ids(items: seq<Item>): seq<string> {
    Map(items, (i: Item) => i.requirementId)
  }

  /** The blocking rows are, in order, those of the critical, non-overridden, uncovered requirements. */
  lemma GateBlocksExactly(tenderId: string, reqs: seq<Requirement>, vault: seq<EvidenceDoc>, now: int,
                          dueDate: Option<string>, previous: int, overridden: seq<string>)
    ensures var gate := ExportGate(GenerateMatrix(tenderId, reqs, vault, now, dueDate, previous), overridden);
            && Ids(gate.blocking)
               == Map(Filter(reqs, r => Uncovered(r, vault, now, overridden)), (r: Requirement) => r.id)
            && (gate.allowed <==> forall r :: r in reqs ==> !Uncovered(r, vault, now, overridden))
  {
    var build := (req: Requirement) => BuildItem(req, vault, now, dueDate);
    var uncovered := (r: Requirement) => Uncovered(r, vault, now, overridden);
    forall r | r in reqs
      ensures Blocks(build(r), overridden) == uncovered(r)
    {
      ItemStatusMeaning(r, vault, now, dueDate);
    }
    FilterOfMap(reqs, build, (i: Item) => Blocks(i, overridden), uncovered);
    MapOfMap(Filter(reqs, uncovered), build, (i: Item) => i.requirementId, (r: Requirement) => r.id);
    FilterMembers(reqs, uncovered);
    if Filter(reqs, uncovered) != [] {
      assert Filter(reqs, uncovered)[0] in Filter(reqs, uncovered);
    }
  }

  ghost predicate Allowed(reqs: seq<Requirement>, vault: seq<EvidenceDoc>, now: int, overridden: seq<string>) {
    ExportGate(GenerateMatrix("", reqs, vault, now, None, 0), overridden).allowed
  }

  /** A matrix has one row for each requirement, in order, the next version and the time of its making. */
  lemma MatrixMeaning(tenderId: string, reqs: seq<Requirement>, vault: seq<EvidenceDoc>, now: int,
                      dueDate: Option<string>, previous: int)
    ensures var m := GenerateMatrix(tenderId, reqs, vault, now, dueDate, previous);
            && m.tenderId == tenderId && m.version == previous + 1 && m.generatedAt == now
            && |m.items| == |reqs|
            && forall k :: 0 <= k < |reqs| ==>
                 m.items[k].requirementId == reqs[k].id && m.items[k].requirementText == reqs[k].text
  {}

  /**
   An allowed export stays allowed when documents are added or reordered, requirements dropped,
   overrides added and time passes.
   */
  lemma AllowedIsMonotone(reqs: seq<Requirement>, reqs': seq<Requirement>, vault: seq<EvidenceDoc>,
                          vault': seq<EvidenceDoc>, now: int, now': int, overridden: seq<string>,
                          overridden': seq<string>)
    requires forall r :: r in reqs' ==> r in reqs
    requires forall d :: d in vault ==> d in vault'
    requires forall id :: id in overridden ==> id in overridden'
    requires now <= now'
    requires Allowed(reqs, vault, now, overridden)
    ensures Allowed(reqs', vault', now', overridden')
  {
    GateBlocksExactly("", reqs, vault, now, None, 0, overridden);
    GateBlocksExactly("", reqs', vault', now', None, 0, overridden');
    forall r | r in reqs'
      ensures !Uncovered(r, vault', now', overridden')
    {
      assert !Uncovered(r, vault, now, overridden);
      if Covered(r, vault, now) {
        var d :| d in vault && Covers(d, r, now);
        assert d in vault' && Covers(d, r, now');
      }
    }
  }

  /** Item statuses themselves are not monotone in time: one document takes an item down, another up. */
  lemma StatusesMoveBothWays(req: Requirement, t: int)
    ensures var docType := RuleOf(req.category).docType;
            var current := [EvidenceDoc("d", docType, "active", Some(t))];
            var archived := [EvidenceDoc("d", docType, "archived", Some(t))];
            && BuildItem(req, current, t - 1, None).status == Satisfied
            && BuildItem(req, current, t, None).status == Partial
            && BuildItem(req, archived, t - 1, None).status == Missing
            && BuildItem(req, archived, t, None).status == Partial
  {
    var docType := RuleOf(req.category).docType;
    var current := [EvidenceDoc("d", docType, "active", Some(t))];
    var archived := [EvidenceDoc("d", docType, "archived", Some(t))];
    forall vault, now | vault in {current, archived} && now in {t - 1, t}
      ensures var status := BuildItem(req, vault, now, None).status;
              && (status == Satisfied <==> vault == current && now < t)
              && (status == Missing <==> vault == archived && now < t)
              && status != Overridden
    {
      assert vault[0] in vault;
      ItemStatusMeaning(req, vault, now, None);
    }
  }

  /** On any matrix at all: what blocks is critical, not satisfied and not overridden, and nothing else does. */
  lemma GateOnAnyMatrix(matrix: Matrix, overridden: seq<string>)
    ensures var gate := ExportGate(matrix, overridden);
            && (forall i :: i in gate.blocking <==>
                  i in matrix.items && i.risk == Critical && i.status != Satisfied && i.requirementId !in overridden)
            && (gate.allowed <==> gate.blocking == [])
  {
    FilterMembers(matrix.items, i => Blocks(i, overridden));
  }

  // ----- The gate against its documentation -----

  /** The documented rule: no critical, non-overridden requirement may lack evidence in force. */
  ghost predicate DocumentedAllowed(reqs: seq<Requirement>, vault: seq<EvidenceDoc>, now: int,
                                    overridden: seq<string>)
  {
    forall r :: r in reqs && r.critical && r.id !in overridden ==> Evidenced(r, vault, now)
  }

  /** Only run-out evidence: something of the right type has expired and nothing is in force. */
  ghost predicate OnlyExpired(r: Requirement, vault: seq<EvidenceDoc>, now: int) {
    && !Evidenced(r, vault, now)
    && exists d :: d in vault && Candidate(RuleOf(r.category), d) && HasExpired(d, now)
  }

  lemma EvidenceKinds(r: Requirement, vault: seq<EvidenceDoc>, now: int)
    ensures Covered(r, vault, now) <==> Evidenced(r, vault, now) || OnlyExpired(r, vault, now)
  {
    if Covered(r, vault, now) {
      var d :| d in vault && Covers(d, r, now);
      assert Candidate(RuleOf(r.category), d) && (InForce(d, now) || HasExpired(d, now));
    }
  }

  /**
   The gate departs from its documentation exactly when no critical row blocks and some critical,
   non-overridden requirement has nothing but expired evidence: such a row is rated medium and passes.
   */
  lemma GateVersusDocumentation(reqs: seq<Requirement>, vault: seq<EvidenceDoc>, now: int, overridden: seq<string>)
    ensures DocumentedAllowed(reqs, vault, now, overridden) ==> Allowed(reqs, vault, now, overridden)
    ensures Allowed(reqs, vault, now, overridden) && !DocumentedAllowed(reqs, vault, now, overridden) <==>
      && (forall r :: r in reqs ==> !Uncovered(r, vault, now, overridden))
      && exists r :: r in reqs && r.critical && r.id !in overridden && OnlyExpired(r, vault, now)
  {
    GateBlocksExactly("", reqs, vault, now, None, 0, overridden);
    forall r | r in reqs
      ensures Evidenced(r, vault, now) ==> Covered(r, vault, now)
      ensures Covered(r, vault, now) && !Evidenced(r, vault, now) <==> OnlyExpired(r, vault, now)
    {
      EvidenceKinds(r, vault, now);
    }
  }

  /** A critical requirement whose only evidence ran out a millisecond ago does not block. */
  lemma ExpiredEvidencePasses(t: int)
    ensures var reqs := [Requirement("r1", "licence", "legal", true)];
            var vault := [EvidenceDoc("d1", "legal", "active", Some(t))];
            Allowed(reqs, vault, t + 1, []) && !DocumentedAllowed(reqs, vault, t + 1, [])
  {
    var reqs := [Requirement("r1", "licence", "legal", true)];
    var vault := [EvidenceDoc("d1", "legal", "active", Some(t))];
    GateVersusDocumentation(reqs, vault, t + 1, []);
    assert vault[0] in vault && reqs[0] in reqs;
    assert HasExpired(vault[0], t + 1) && Covers(vault[0], reqs[0], t + 1);
    assert OnlyExpired(reqs[0], vault, t + 1);
  }

  // ----- Tasks -----

  /** How much a requirement without evidence in force weighs. */
  ghost function SeverityOf(r: Requirement, vault: seq<EvidenceDoc>, now: int): Risk {
    if Covered(r, vault, now) then Medium else if r.critical then Critical else High
  }

  ghost function TaskFor(r: Requirement, vault: seq<EvidenceDoc>, now: int, dueDate: Option<string>): Task {
    Task("Provide evidence: " + r.text, RuleOf(r.category).owner, dueDate, SeverityOf(r, vault, now), r.id)
  }

  predicate CallsFor(matrix: Matrix, i: Item, t: Task) {
    && i in matrix.items && i.status in {Missing, Partial}
    && t == Task("Provide evidence: " + i.requirementText, i.owner, i.dueDate, i.risk, i.requirementId)
  }

  /** On any matrix at all: an item calls for a task exactly when it is missing or partial. */
  lemma TasksOnAnyMatrix(matrix: Matrix)
    ensures forall t :: t in DeriveTasks(matrix) <==> exists i :: CallsFor(matrix, i, t)
  {
    var open := Filter(matrix.items, (i: Item) => i.status != Satisfied && i.status != Overridden);
    FilterMembers(matrix.items, (i: Item) => i.status != Satisfied && i.status != Overridden);
    forall t
      ensures t in DeriveTasks(matrix) <==> exists i :: CallsFor(matrix, i, t)
    {
      if t in DeriveTasks(matrix) {
        var k :| 0 <= k < |open| && DeriveTasks(matrix)[k] == t;
        assert open[k] in open && CallsFor(matrix, open[k], t);
      }
      if i :| CallsFor(matrix, i, t) {
        var k :| 0 <= k < |open| && open[k] == i;
        assert DeriveTasks(matrix)[k] == t;
      }
    }
  }

  /** The tasks are, in order, those for each requirement without evidence in force, overridden or not. */
  lemma TasksExactly(tenderId: string, reqs: seq<Requirement>, vault: seq<EvidenceDoc>, now: int,
                     dueDate: Option<string>, previous: int)
    ensures DeriveTasks(GenerateMatrix(tenderId, reqs, vault, now, dueDate, previous))
         == Map(Filter(reqs, r => !Evidenced(r, vault, now)), r => TaskFor(r, vault, now, dueDate))
  {
    var build := (req: Requirement) => BuildItem(req, vault, now, dueDate);
    var open := (i: Item) => i.status != Satisfied && i.status != Overridden;
    var lacking := (r: Requirement) => !Evidenced(r, vault, now);
    forall r | r in reqs
      ensures open(build(r)) == lacking(r)
    {
      ItemStatusMeaning(r, vault, now, dueDate);
    }
    FilterOfMap(reqs, build, open, lacking);
    FilterMembers(reqs, lacking);
    var left := Filter(reqs, lacking);
    var task := (i: Item) =>
      Task("Provide evidence: " + i.requirementText, i.owner, i.dueDate, i.risk, i.requirementId);
    var taskFor := r => TaskFor(r, vault, now, dueDate);
    forall r | r in left
      ensures task(build(r)) == taskFor(r)
    {
      ItemStatusMeaning(r, vault, now, dueDate);
    }
    MapOfMap(left, build, task, taskFor);
    assert DeriveTasks(GenerateMatrix(tenderId, reqs, vault, now, dueDate, previous)) == Map(Map(left, build), task);
  }
}
