/**
 * Download rules: one draft at most, a chain of published versions, and a row that carries the
 * name, the switch and the actions of the current version. Publishing reads the draft before its
 * transaction begins and writes the row from what it read.
 */
module RuleModel {
  import opened Results
  import opened Text

  type RuleId = nat
  type ClientId = nat

  datatype RuleAction = Download | MetadataOnly | Ignore

  /** `body` stands for the condition tree, which is stored and never looked into here. */
  datatype Definition = Definition(
    id: RuleId, name: string, enabled: bool, action: RuleAction, defaultAction: RuleAction, schemaVersion: int,
    body: nat)

  /** Submitted JSON either parses as a definition or does not. */
  datatype Json = Parses(definition: Definition) | Malformed

  datatype Rule = Rule(
    name: string, enabled: bool, action: RuleAction, defaultAction: RuleAction, current: Option<int>, revision: int)

  datatype Draft = Draft(base: Option<int>, schemaVersion: int, definition: Definition, revision: int)

  datatype Version = Version(base: Option<int>, schemaVersion: int, definition: Definition)

  datatype Tables = Tables(rules: map<RuleId, Rule>, drafts: map<RuleId, Draft>, versions: map<(RuleId, int), Version>)

  datatype RuleError =
    NotFound | RevisionConflict | EmptyName | NameTaken | AlreadyExists | InvalidDefinition | WrongRule

  function NumberOf(version: Option<int>): int {
    if version.Some? then version.value else 0
  }

  predicate NameTakenBy(t: Tables, name: string, other: RuleId) {
    other in t.rules && t.rules[other].name == name
  }

  predicate NameFree(t: Tables, id: RuleId, name: string) {
    forall other :: other in t.rules && other != id ==> !NameTakenBy(t, name, other)
  }

  // ----- Transactions ------------------------------------------------------------------------

  function CreateTx(t: Tables, definition: Definition): Result<Tables, RuleError> {
    var id, name := definition.id, Trim(definition.name);
    if name == "" then Err(EmptyName)
    else if id in t.rules then Err(AlreadyExists)
    else if !NameFree(t, id, name) then Err(NameTaken)
    else
      var rule := Rule(name, definition.enabled, definition.action, definition.defaultAction, None, 1);
      Ok(Tables(t.rules[id := rule], t.drafts[id := Draft(None, definition.schemaVersion, definition, 1)], t.versions))
  }

  function SaveTx(t: Tables, id: RuleId, expected: Option<int>, base: Option<int>, definition: Definition)
    : Result<Tables, RuleError>
  {
    if id !in t.rules then Err(NotFound)
    else
      var rule := t.rules[id];
      var saved := t.rules[id := rule.(revision := rule.revision + 1)];
      if id in t.drafts then
        var draft := t.drafts[id];
        if expected != Some(draft.revision) || base != draft.base || draft.base != rule.current then
          Err(RevisionConflict)
        else
          var next := Draft(draft.base, definition.schemaVersion, definition, draft.revision + 1);
          Ok(Tables(saved, t.drafts[id := next], t.versions))
      else if expected.Some? || base != rule.current then Err(RevisionConflict)
      else Ok(Tables(saved, t.drafts[id := Draft(base, definition.schemaVersion, definition, 1)], t.versions))
  }

  /** The whole of the service's `save_draft`. */
  function Save(t: Tables, id: RuleId, expected: Option<int>, base: Option<int>, json: Json)
    : Result<Tables, RuleError>
  {
    if json.Malformed? then Err(InvalidDefinition)
    else if json.definition.id != id then Err(WrongRule)
    else SaveTx(t, id, expected, base, json.definition)
  }

  /** What a publication takes into its transaction from the draft it read. */
  datatype Publication = Publication(
    rule: RuleId, base: Option<int>, draftRevision: int, name: string, enabled: bool, action: RuleAction,
    defaultAction: RuleAction)

  /** The draft is the one expected: made from `base`, and saved that many times. */
  predicate IsAt(draft: Draft, base: Option<int>, draftRevision: int) {
    draft.base == base && draft.revision == draftRevision
  }

  /** The publication carries the base, the revision and all that a rule's row shows of the draft. */
  predicate TakenFrom(p: Publication, draft: Draft) {
    && p.base == draft.base && p.draftRevision == draft.revision
    && p.name == draft.definition.name && p.enabled == draft.definition.enabled
    && p.action == draft.definition.action && p.defaultAction == draft.definition.defaultAction
  }

  /** The reading half of publishing, before the transaction. */
  function Prepare(t: Tables, id: RuleId, base: Option<int>, draftRevision: int): Result<Publication, RuleError> {
    if id !in t.drafts then Err(RevisionConflict)
    else
      var draft := t.drafts[id];
      if draft.base != base || draft.revision != draftRevision then Err(RevisionConflict)
      else if draft.definition.id != id then Err(WrongRule)
      else
        var d := draft.definition;
        Ok(Publication(id, base, draftRevision, d.name, d.enabled, d.action, d.defaultAction))
  }

  function PublishTx(t: Tables, p: Publication): Result<Tables, RuleError> {
    if p.rule !in t.rules then Err(NotFound)
    else
      var rule := t.rules[p.rule];
      if p.base != rule.current || p.rule !in t.drafts then Err(RevisionConflict)
      else
        var draft := t.drafts[p.rule];
        if draft.base != p.base || draft.revision != p.draftRevision then Err(RevisionConflict)
        else if !NameFree(t, p.rule, Trim(p.name)) then Err(NameTaken)
        else
          var version := NumberOf(rule.current) + 1;
          var published := Rule(Trim(p.name), p.enabled, p.action, p.defaultAction, Some(version), rule.revision + 1);
          Ok(Tables(t.rules[p.rule := published], t.drafts - {p.rule},
                    t.versions[(p.rule, version) := Version(p.base, draft.schemaVersion, draft.definition)]))
  }

  function DeleteTx(t: Tables, id: RuleId, expected: int): Result<Tables, RuleError> {
    if id !in t.rules then Err(NotFound)
    else if t.rules[id].revision != expected then Err(RevisionConflict)
    else Ok(Tables(t.rules - {id}, t.drafts - {id}, map key | key in t.versions && key.0 != id :: t.versions[key]))
  }

  // ----- Runs --------------------------------------------------------------------------------

  /** A publication under way: the draft it read, and what it made of it. */
  datatype Publishing = Publishing(read: Draft, publication: Publication)

  /** `created` holds every rule id ever used, for identifiers are not used twice. */
  datatype State = State(tables: Tables, created: set<RuleId>, clients: map<ClientId, Publishing>)

  datatype Action =
    | Create(definition: Definition)
    | SaveDraft(rule: RuleId, expected: Option<int>, base: Option<int>, json: Json)
    | ReadDraft(client: ClientId, rule: RuleId, base: Option<int>, draftRevision: int)
    | Publish(client: ClientId)
    | Delete(rule: RuleId, revision: int)

  function Settled(s: State, outcome: Result<Tables, RuleError>): State {
    if outcome.Ok? then s.(tables := outcome.value) else s
  }

  function Apply(s: State, action: Action): State {
    match action
    case Create(definition) =>
      if definition.id in s.created then s
      else Settled(s, CreateTx(s.tables, definition)).(created := s.created + {definition.id})
    case SaveDraft(rule, expected, base, json) => Settled(s, Save(s.tables, rule, expected, base, json))
    case ReadDraft(client, rule, base, draftRevision) =>
      var prepared := Prepare(s.tables, rule, base, draftRevision);
      if prepared.Ok? && rule in s.tables.drafts
      then s.(clients := s.clients[client := Publishing(s.tables.drafts[rule], prepared.value)]) else s
    case Publish(client) =>
      if client !in s.clients then s
      else Settled(s, PublishTx(s.tables, s.clients[client].publication)).(clients := s.clients - {client})
    case Delete(rule, revision) => Settled(s, DeleteTx(s.tables, rule, revision))
  }

  function Exec(s: State, actions: seq<Action>): State
    decreases |actions|
  {
    if actions == [] then s else Exec(Apply(s, actions[0]), actions[1..])
  }

  const Start: State := State(Tables(map[], map[], map[]), {}, map[])
}
