/**
 * What the rule transactions do to the tables, said on the tables before and after; and what a draft
 * and a published version have to do with what was submitted.
 */
module RuleHistory {
  import opened Results
  import opened Text
  import opened RuleModel
  import opened RuleTheorems

  // ----- One transaction ---------------------------------------------------------------------

  /** Nothing but the entries of one rule differs. */
  ghost predicate OnlyRule(t: Tables, later: Tables, id: RuleId) {
    && (forall other :: other != id ==> (other in later.rules <==> other in t.rules))
    && (forall other :: other != id && other in t.rules ==> later.rules[other] == t.rules[other])
    && (forall other :: other != id ==> (other in later.drafts <==> other in t.drafts))
    && (forall other :: other != id && other in t.drafts ==> later.drafts[other] == t.drafts[other])
    && (forall key :: key in later.versions && key.0 != id ==> key in t.versions)
    && (forall key :: key in t.versions && key.0 != id ==>
          key in later.versions && later.versions[key] == t.versions[key])
  }

  /** Whether a rule other than `id` has the name. */
  ghost predicate HasName(t: Tables, id: RuleId, name: string) {
    exists other :: other in t.rules && other != id && t.rules[other].name == name
  }

  lemma NameFreeIs(t: Tables, id: RuleId, name: string)
    ensures NameFree(t, id, name) <==> !HasName(t, id, name)
  {
    if HasName(t, id, name) {
      var other :| other in t.rules && other != id && t.rules[other].name == name;
      assert NameTakenBy(t, name, other);
    }
  }

  /**
   * A rule is created when its name is not blank, its id is new and no other rule has the name. It has no
   * version then, and a first draft that is the definition.
   */
  lemma CreateStores(t: Tables, definition: Definition, outcome: Result<Tables, RuleError>)
    requires outcome == CreateTx(t, definition)
    ensures outcome == Err(EmptyName) <==> Trim(definition.name) == ""
    ensures outcome == Err(AlreadyExists) <==> Trim(definition.name) != "" && definition.id in t.rules
    ensures outcome == Err(NameTaken) <==>
      Trim(definition.name) != "" && definition.id !in t.rules && HasName(t, definition.id, Trim(definition.name))
    ensures outcome.Err? ==> outcome.error in {EmptyName, AlreadyExists, NameTaken}
    ensures outcome.Ok? ==>
      var id, later := definition.id, outcome.value;
      && OnlyRule(t, later, id) && later.versions == t.versions
      && id in later.rules && Agrees(later.rules[id], definition)
      && later.rules[id].current == None && later.rules[id].revision == 1
      && id in later.drafts && later.drafts[id] == Draft(None, definition.schemaVersion, definition, 1)
  {
    NameFreeIs(t, definition.id, Trim(definition.name));
  }

  /** The draft a save expects: the one that is there, at that revision and base, or none. */
  predicate Expected(t: Tables, id: RuleId, expected: Option<int>, base: Option<int>) {
    if id in t.drafts then expected == Some(t.drafts[id].revision) && base == t.drafts[id].base else expected == None
  }

  /**
   * A save commits exactly when what is submitted is a definition of the rule, the rule is there and base
   * and revision are the expected ones. The draft is then what was submitted, at its first revision or
   * the next one, the rule's row moves by one revision, and nothing else changes.
   */
  lemma SaveStores(
    t: Tables, id: RuleId, expected: Option<int>, base: Option<int>, json: Json, outcome: Result<Tables, RuleError>)
    requires outcome == Save(t, id, expected, base, json)
    ensures outcome == Err(InvalidDefinition) <==> json.Malformed?
    ensures outcome == Err(WrongRule) <==> json.Parses? && json.definition.id != id
    ensures outcome == Err(NotFound) <==> json.Parses? && json.definition.id == id && id !in t.rules
    ensures outcome.Err? ==> outcome.error in {InvalidDefinition, WrongRule, NotFound, RevisionConflict}
    ensures outcome.Ok? <==>
      && json.Parses? && json.definition.id == id && id in t.rules
      && base == t.rules[id].current && Expected(t, id, expected, base)
    ensures outcome.Ok? ==>
      var later := outcome.value;
      && OnlyRule(t, later, id) && later.versions == t.versions
      && id in later.rules && later.rules[id] == t.rules[id].(revision := t.rules[id].revision + 1)
      && id in later.drafts && later.drafts[id].definition == json.definition
      && later.drafts[id].schemaVersion == json.definition.schemaVersion && later.drafts[id].base == base
      && later.drafts[id].revision == if id in t.drafts then t.drafts[id].revision + 1 else 1
  {
  }

  /**
   * A publication commits exactly when the rule is still at the publication's base, its draft is the one
   * that was read and no other rule has the name. The draft becomes the version after the base and goes,
   * the row shows what was read at its next revision, and nothing else changes.
   */
  lemma PublishMoves(t: Tables, p: Publication, outcome: Result<Tables, RuleError>)
    requires outcome == PublishTx(t, p)
    ensures outcome == Err(NotFound) <==> p.rule !in t.rules
    ensures outcome.Err? ==> outcome.error in {NotFound, RevisionConflict, NameTaken}
    ensures var stands := p.rule in t.rules && p.base == t.rules[p.rule].current && p.rule in t.drafts
        && t.drafts[p.rule].base == p.base && t.drafts[p.rule].revision == p.draftRevision;
      && (outcome.Ok? <==> stands && !HasName(t, p.rule, Trim(p.name)))
      && (outcome == Err(NameTaken) <==> stands && HasName(t, p.rule, Trim(p.name)))
    ensures outcome.Ok? ==>
      var later, n, draft := outcome.value, (if p.base.Some? then p.base.value else 0) + 1, t.drafts[p.rule];
      && OnlyRule(t, later, p.rule) && p.rule !in later.drafts && p.rule in later.rules
      && later.rules[p.rule]
         == Rule(Trim(p.name), p.enabled, p.action, p.defaultAction, Some(n), t.rules[p.rule].revision + 1)
      && (p.rule, n) in later.versions
      && later.versions[(p.rule, n)] == Version(p.base, draft.schemaVersion, draft.definition)
      && (forall key :: key in t.versions && key != (p.rule, n) ==>
            key in later.versions && later.versions[key] == t.versions[key])
      && (forall key :: key in later.versions && key != (p.rule, n) ==> key in t.versions)
  {
    NameFreeIs(t, p.rule, Trim(p.name));
  }

  /** A deletion at the expected revision removes the rule, its draft and its versions, and nothing else. */
  lemma DeleteRemoves(t: Tables, id: RuleId, expected: int, outcome: Result<Tables, RuleError>)
    requires outcome == DeleteTx(t, id, expected)
    ensures outcome == Err(NotFound) <==> id !in t.rules
    ensures outcome == Err(RevisionConflict) <==> id in t.rules && t.rules[id].revision != expected
    ensures outcome.Err? ==> outcome.error in {NotFound, RevisionConflict}
    ensures outcome.Ok? ==>
      var later := outcome.value;
      OnlyRule(t, later, id) && id !in later.rules && id !in later.drafts && forall n :: (id, n) !in later.versions
  {
  }

  /** A run is these transactions: each takes its effect on the tables or none, and ids and reads are used once. */
  lemma RunsAreTransactions(s: State, definition: Definition, client: ClientId, rule: RuleId, revision: int)
    ensures var created, outcome := Apply(s, Create(definition)), CreateTx(s.tables, definition);
      if definition.id in s.created then created == s
      else
        && created.tables == (if outcome.Ok? then outcome.value else s.tables) && created.clients == s.clients
        && created.created == s.created + {definition.id}
    ensures var published := Apply(s, Publish(client));
      if client !in s.clients then published == s
      else
        var outcome := PublishTx(s.tables, s.clients[client].publication);
        && published.tables == (if outcome.Ok? then outcome.value else s.tables) && published.created == s.created
        && published.clients == s.clients - {client}
    ensures var deleted, outcome := Apply(s, Delete(rule, revision)), DeleteTx(s.tables, rule, revision);
      deleted == if outcome.Ok? then s.(tables := outcome.value) else s
  {
  }

  // ----- What was submitted ------------------------------------------------------------------

  /** What an action submits for a rule. */
  function Submits(action: Action, id: RuleId): Option<Definition> {
    match action
    case Create(definition) => if definition.id == id then Some(definition) else None
    case SaveDraft(rule, _, _, json) => if rule == id && json.Parses? then Some(json.definition) else None
    case _ => None
  }

  /** The definition submitted last for the rule by an action that changed the tables, starting from `last`. */
  function LastSubmitted(s: State, actions: seq<Action>, id: RuleId, last: Option<Definition>): Option<Definition>
    decreases |actions|
  {
    if actions == [] then last
    else
      var next := Apply(s, actions[0]);
      var submitted := Submits(actions[0], id);
      LastSubmitted(next, actions[1..], id, if submitted.Some? && next.tables != s.tables then submitted else last)
  }

  ghost predicate DraftIs(s: State, id: RuleId, last: Option<Definition>) {
    id in s.tables.drafts ==> last == Some(s.tables.drafts[id].definition)
  }

  lemma StepSubmits(s: State, action: Action, id: RuleId, last: Option<Definition>)
    requires DraftIs(s, id, last)
    ensures var next := Apply(s, action); var submitted := Submits(action, id);
      DraftIs(next, id, if submitted.Some? && next.tables != s.tables then submitted else last)
  {
    match action
    case Create(definition) => CreateStores(s.tables, definition, CreateTx(s.tables, definition));
    case SaveDraft(rule, expected, base, json) =>
      SaveStores(s.tables, rule, expected, base, json, Save(s.tables, rule, expected, base, json));
    case ReadDraft(_, _, _, _) =>
    case Publish(client) =>
      if client in s.clients {
        PublishMoves(s.tables, s.clients[client].publication, PublishTx(s.tables, s.clients[client].publication));
      }
    case Delete(rule, revision) => DeleteRemoves(s.tables, rule, revision, DeleteTx(s.tables, rule, revision));
  }

  lemma {:induction false} RunSubmits(s: State, actions: seq<Action>, id: RuleId, last: Option<Definition>)
    requires DraftIs(s, id, last)
    ensures DraftIs(Exec(s, actions), id, LastSubmitted(s, actions, id, last))
    decreases |actions|
  {
    if actions != [] {
      var next, submitted := Apply(s, actions[0]), Submits(actions[0], id);
      StepSubmits(s, actions[0], id, last);
      RunSubmits(next, actions[1..], id, if submitted.Some? && next.tables != s.tables then submitted else last);
    }
  }

  /** In every run a rule's draft is the definition that was submitted last and stored. */
  lemma DraftIsLastSubmitted(actions: seq<Action>, id: RuleId)
    requires id in Exec(Start, actions).tables.drafts
    ensures LastSubmitted(Start, actions, id, None) == Some(Exec(Start, actions).tables.drafts[id].definition)
  {
    RunSubmits(Start, actions, id, None);
  }

  /**
   * In every run what a publication publishes is the definition that was submitted last, both when it was
   * read and when it is published.
   */
  lemma PublishesLastSubmitted(actions: seq<Action>, client: ClientId)
    requires var s := Exec(Start, actions);
      client in s.clients && PublishTx(s.tables, s.clients[client].publication).Ok?
    ensures var s := Exec(Start, actions); var p := s.clients[client].publication;
      var later := Apply(s, Publish(client)).tables; var n := NumberOf(p.base) + 1;
      && (p.rule, n) in later.versions && p.rule in later.rules && later.rules[p.rule].current == Some(n)
      && LastSubmitted(Start, actions, p.rule, None) == Some(later.versions[(p.rule, n)].definition)
      && s.clients[client].read.definition == later.versions[(p.rule, n)].definition
  {
    var s := Exec(Start, actions);
    var p := s.clients[client].publication;
    ExecInv(Start, actions);
    PublishesItsRead(s, client);
    DraftIsLastSubmitted(actions, p.rule);
  }

  lemma PublishesItsRead(s: State, client: ClientId)
    requires Inv(s) && client in s.clients && PublishTx(s.tables, s.clients[client].publication).Ok?
    ensures var p := s.clients[client].publication; var later := Apply(s, Publish(client)).tables;
      var n := NumberOf(p.base) + 1;
      && p.rule in s.tables.drafts && s.tables.drafts[p.rule] == s.clients[client].read
      && (p.rule, n) in later.versions && p.rule in later.rules && later.rules[p.rule].current == Some(n)
      && later.versions[(p.rule, n)].definition == s.clients[client].read.definition
  {
    var p := s.clients[client].publication;
    PublishesWhatWasRead(s, client);
    PublishMoves(s.tables, p, PublishTx(s.tables, p));
  }

  /** What a client reads for publication is the rule's draft at the base and revision it asked for. */
  lemma ReadIsTheDraft(s: State, client: ClientId, rule: RuleId, base: Option<int>, draftRevision: int)
    requires Inv(s)
    ensures var later := Apply(s, ReadDraft(client, rule, base, draftRevision));
      var found := rule in s.tables.drafts && IsAt(s.tables.drafts[rule], base, draftRevision);
      && later.tables == s.tables && later.created == s.created
      && (!found ==> later == s)
      && (found ==>
            && client in later.clients && later.clients[client].read == s.tables.drafts[rule]
            && later.clients[client].publication.rule == rule
            && TakenFrom(later.clients[client].publication, s.tables.drafts[rule])
            && forall other :: other != client ==>
                 (other in later.clients <==> other in s.clients)
                 && (other in s.clients ==> later.clients[other] == s.clients[other]))
  {
    if rule in s.tables.drafts {
      assert rule in s.tables.rules && RuleSound(s.tables, rule);
    }
  }
}
