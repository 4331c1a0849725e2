/** Published versions, drafts and rule rows agree, whatever is saved between reading and publishing. */
module RuleTheorems {
  import opened Results
  import opened Text
  import opened RuleModel

  /** The row shows what the definition says. */
  predicate Agrees(rule: Rule, definition: Definition) {
    && rule.name == Trim(definition.name)
    && rule.enabled == definition.enabled
    && rule.action == definition.action
    && rule.defaultAction == definition.defaultAction
  }

  /** The versions of a rule are numbered `1 .. current`, each based on the one before. */
  ghost predicate ChainSound(t: Tables, id: RuleId)
    requires id in t.rules
  {
    var current := NumberOf(t.rules[id].current);
    && (t.rules[id].current.Some? ==> current >= 1)
    && (forall n :: (id, n) in t.versions <==> 1 <= n <= current)
    && (forall n :: 1 <= n <= current ==> t.versions[(id, n)].base == (if n == 1 then None else Some(n - 1)))
  }

  ghost predicate DraftSound(t: Tables, id: RuleId)
    requires id in t.rules
  {
    id in t.drafts ==> t.drafts[id].base == t.rules[id].current && t.drafts[id].definition.id == id
  }

  ghost predicate RowSound(t: Tables, id: RuleId)
    requires id in t.rules
  {
    var rule := t.rules[id];
    rule.current.Some? && (id, rule.current.value) in t.versions ==>
      Agrees(rule, t.versions[(id, rule.current.value)].definition)
  }

  ghost predicate RuleSound(t: Tables, id: RuleId)
    requires id in t.rules
  {
    ChainSound(t, id) && DraftSound(t, id) && RowSound(t, id)
  }

  ghost predicate NamesUnique(t: Tables) {
    forall a, b :: a in t.rules && b in t.rules && a != b ==> t.rules[a].name != t.rules[b].name
  }

  ghost predicate TablesSound(t: Tables) {
    && (forall id :: id in t.rules ==> RuleSound(t, id))
    && (forall id :: id in t.drafts ==> id in t.rules)
    && (forall key :: key in t.versions ==> key.0 in t.rules)
    && NamesUnique(t)
  }

  /**
   * A draft seen once is gone for good, or has been saved over, or is still there unchanged: its
   * base and revision together never come back with other contents.
   */
  ghost predicate Remembered(s: State, id: RuleId, seen: Draft) {
    && id in s.created
    && (id in s.tables.rules && NumberOf(s.tables.rules[id].current) <= NumberOf(seen.base) ==>
          && id in s.tables.drafts
          && s.tables.drafts[id].base == seen.base
          && seen.revision <= s.tables.drafts[id].revision
          && (seen.revision == s.tables.drafts[id].revision ==> s.tables.drafts[id] == seen))
  }

  ghost predicate ClientsSound(s: State) {
    forall c :: c in s.clients ==>
      && Remembered(s, s.clients[c].publication.rule, s.clients[c].read)
      && TakenFrom(s.clients[c].publication, s.clients[c].read)
  }

  ghost predicate Inv(s: State) {
    TablesSound(s.tables) && (forall id :: id in s.tables.rules ==> id in s.created) && ClientsSound(s)
  }

  // ----- Each transaction keeps the tables sound ---------------------------------------------

  lemma RuleElsewhere(t: Tables, later: Tables, id: RuleId)
    requires id in t.rules && id in later.rules && later.rules[id] == t.rules[id] && RuleSound(t, id)
    requires id in later.drafts ==> id in t.drafts && later.drafts[id] == t.drafts[id]
    requires forall n :: (id, n) in later.versions <==> (id, n) in t.versions
    requires forall n :: (id, n) in t.versions ==> later.versions[(id, n)] == t.versions[(id, n)]
    ensures RuleSound(later, id)
  {
  }

  lemma CreateSound(t: Tables, definition: Definition)
    requires TablesSound(t) && CreateTx(t, definition).Ok?
    ensures TablesSound(CreateTx(t, definition).value)
  {
    var later := CreateTx(t, definition).value;
    forall id | id in later.rules
      ensures RuleSound(later, id)
    {
      if id != definition.id {
        RuleElsewhere(t, later, id);
      }
    }
    forall other | other in t.rules
      ensures t.rules[other].name != Trim(definition.name)
    {
      assert !NameTakenBy(t, Trim(definition.name), other);
    }
  }

  lemma SaveSound(t: Tables, id: RuleId, expected: Option<int>, base: Option<int>, json: Json)
    requires TablesSound(t) && Save(t, id, expected, base, json).Ok?
    ensures TablesSound(Save(t, id, expected, base, json).value)
  {
    var later := Save(t, id, expected, base, json).value;
    assert RuleSound(t, id);
    forall other | other in later.rules
      ensures RuleSound(later, other)
    {
      if other != id {
        RuleElsewhere(t, later, other);
      }
    }
  }

  lemma PublishSound(t: Tables, p: Publication)
    requires TablesSound(t) && PublishTx(t, p).Ok?
    requires p.rule in t.drafts && TakenFrom(p, t.drafts[p.rule])
    ensures TablesSound(PublishTx(t, p).value)
  {
    var later := PublishTx(t, p).value;
    PublishedSound(t, p);
    PublishedNames(t, p);
    forall id | id in later.rules
      ensures RuleSound(later, id)
    {
      if id != p.rule {
        RuleElsewhere(t, later, id);
      }
    }
  }

  /** The published rule itself. */
  lemma PublishedSound(t: Tables, p: Publication)
    requires p.rule in t.rules && RuleSound(t, p.rule) && PublishTx(t, p).Ok?
    requires p.rule in t.drafts && TakenFrom(p, t.drafts[p.rule])
    ensures RuleSound(PublishTx(t, p).value, p.rule)
  {
  }

  lemma PublishedNames(t: Tables, p: Publication)
    requires NamesUnique(t) && PublishTx(t, p).Ok?
    ensures NamesUnique(PublishTx(t, p).value)
  {
    forall other | other in t.rules && other != p.rule
      ensures t.rules[other].name != Trim(p.name)
    {
      assert !NameTakenBy(t, Trim(p.name), other);
    }
  }

  lemma DeleteSound(t: Tables, id: RuleId, expected: int)
    requires TablesSound(t) && DeleteTx(t, id, expected).Ok?
    ensures TablesSound(DeleteTx(t, id, expected).value)
  {
    var later := DeleteTx(t, id, expected).value;
    forall other | other in later.rules
      ensures RuleSound(later, other)
    {
      RuleElsewhere(t, later, other);
    }
  }

  // ----- What is remembered stays remembered -------------------------------------------------

  lemma StepRemembers(s: State, action: Action, id: RuleId, seen: Draft)
    requires Inv(s) && Remembered(s, id, seen)
    ensures Remembered(Apply(s, action), id, seen)
  {
    match action
    case Create(_) => KeepRemembers(s, action, id, seen);
    case ReadDraft(_, _, _, _) => KeepRemembers(s, action, id, seen);
    case SaveDraft(rule, _, _, _) => SaveRemembers(s, action, id, seen);
    case Publish(client) => PublishRemembers(s, client, id, seen);
    case Delete(rule, _) => KeepRemembers(s, action, id, seen);
  }

  /** Steps that leave the drafts of a rule alone, unless they create or delete the rule. */
  lemma KeepRemembers(s: State, action: Action, id: RuleId, seen: Draft)
    requires action.Create? || action.ReadDraft? || action.Delete?
    requires Remembered(s, id, seen)
    ensures Remembered(Apply(s, action), id, seen)
  {
  }

  lemma SaveRemembers(s: State, action: Action, id: RuleId, seen: Draft)
    requires action.SaveDraft? && Remembered(s, id, seen)
    requires id in s.tables.rules ==> DraftSound(s.tables, id)
    ensures Remembered(Apply(s, action), id, seen)
  {
  }

  lemma PublishRemembers(s: State, client: ClientId, id: RuleId, seen: Draft)
    requires TablesSound(s.tables) && Remembered(s, id, seen)
    ensures Remembered(Apply(s, Publish(client)), id, seen)
  {
    assert id in s.tables.rules ==> ChainSound(s.tables, id) && DraftSound(s.tables, id);
  }

  lemma ReadRemembers(s: State, id: RuleId)
    requires Inv(s) && id in s.tables.drafts
    ensures Remembered(s, id, s.tables.drafts[id])
  {
  }

  /** A publication that passes its checks was made from the very draft it publishes. */
  lemma PublishesWhatWasRead(s: State, client: ClientId)
    requires Inv(s) && client in s.clients && PublishTx(s.tables, s.clients[client].publication).Ok?
    ensures var p := s.clients[client].publication;
      p.rule in s.tables.drafts && s.tables.drafts[p.rule] == s.clients[client].read
  {
  }

  lemma StepTables(s: State, action: Action)
    requires Inv(s)
    ensures TablesSound(Apply(s, action).tables)
  {
    match action
    case Create(definition) =>
      if CreateTx(s.tables, definition).Ok? { CreateSound(s.tables, definition); }
    case SaveDraft(rule, expected, base, json) =>
      if Save(s.tables, rule, expected, base, json).Ok? { SaveSound(s.tables, rule, expected, base, json); }
    case ReadDraft(_, _, _, _) =>
    case Publish(client) =>
      if client in s.clients && PublishTx(s.tables, s.clients[client].publication).Ok? {
        PublishesWhatWasRead(s, client);
        PublishSound(s.tables, s.clients[client].publication);
      }
    case Delete(rule, expected) =>
      if DeleteTx(s.tables, rule, expected).Ok? { DeleteSound(s.tables, rule, expected); }
  }

  lemma StepInv(s: State, action: Action)
    requires Inv(s)
    ensures Inv(Apply(s, action))
  {
    var next := Apply(s, action);
    StepTables(s, action);
    forall c | c in next.clients
      ensures Remembered(next, next.clients[c].publication.rule, next.clients[c].read)
      ensures TakenFrom(next.clients[c].publication, next.clients[c].read)
    {
      if c in s.clients && next.clients[c] == s.clients[c] {
        StepRemembers(s, action, s.clients[c].publication.rule, s.clients[c].read);
      } else {
        ReadRemembers(s, action.rule);
      }
    }
  }

  lemma {:induction false} ExecInv(s: State, actions: seq<Action>)
    requires Inv(s)
    ensures Inv(Exec(s, actions))
    decreases |actions|
  {
    if actions != [] {
      StepInv(s, actions[0]);
      ExecInv(Apply(s, actions[0]), actions[1..]);
    }
  }

  lemma {:induction false} ExecRemembers(s: State, actions: seq<Action>, id: RuleId, seen: Draft)
    requires Inv(s) && Remembered(s, id, seen)
    ensures Remembered(Exec(s, actions), id, seen)
    decreases |actions|
  {
    if actions != [] {
      StepInv(s, actions[0]);
      StepRemembers(s, actions[0], id, seen);
      ExecRemembers(Apply(s, actions[0]), actions[1..], id, seen);
    }
  }

  // ----- Results -----------------------------------------------------------------------------

  /**
   * In every run, the row of a rule with a published version shows exactly what the definition of
   * its current version says, although it was written from an earlier read.
   */
  lemma RowShowsCurrentVersion(actions: seq<Action>, id: RuleId)
    requires var t := Exec(Start, actions).tables; id in t.rules && t.rules[id].current.Some?
    ensures var t := Exec(Start, actions).tables; var n := t.rules[id].current.value;
      (id, n) in t.versions && Agrees(t.rules[id], t.versions[(id, n)].definition)
  {
    ExecInv(Start, actions);
    var t := Exec(Start, actions).tables;
    assert RuleSound(t, id);
  }

  /** The versions of a rule are `1 .. n`, each made from its predecessor; a draft continues the last. */
  lemma VersionsFormAChain(actions: seq<Action>, id: RuleId)
    requires id in Exec(Start, actions).tables.rules
    ensures var t := Exec(Start, actions).tables; var current := NumberOf(t.rules[id].current);
      && (forall n :: (id, n) in t.versions <==> 1 <= n <= current)
      && (forall n :: 1 <= n <= current ==> t.versions[(id, n)].base == (if n == 1 then None else Some(n - 1)))
      && (id in t.drafts ==> t.drafts[id].base == t.rules[id].current)
  {
    ExecInv(Start, actions);
    assert RuleSound(Exec(Start, actions).tables, id);
  }

  /** Base version and draft revision determine what a rule's draft says, through its whole history. */
  lemma DraftIsDetermined(before: seq<Action>, actions: seq<Action>, id: RuleId)
    requires var s := Exec(Start, before); var later := Exec(s, actions);
      && id in s.tables.drafts && id in later.tables.drafts
      && s.tables.drafts[id].base == later.tables.drafts[id].base
      && s.tables.drafts[id].revision == later.tables.drafts[id].revision
    ensures Exec(Start, before).tables.drafts[id] == Exec(Exec(Start, before), actions).tables.drafts[id]
  {
    var s := Exec(Start, before);
    ExecInv(Start, before);
    ExecInv(s, actions);
    ReadRemembers(s, id);
    ExecRemembers(s, actions, id, s.tables.drafts[id]);
    var later := Exec(s, actions).tables;
    assert RuleSound(later, id) && RuleSound(s.tables, id);
  }

  /**
   * A stored draft is always for its own rule, so reading it for publication succeeds exactly at the
   * expected base and revision, and hands out what that draft says.
   */
  lemma PrepareFailsOnlyOnConflict(actions: seq<Action>, id: RuleId, base: Option<int>, draftRevision: int)
    ensures var t := Exec(Start, actions).tables; var prepared := Prepare(t, id, base, draftRevision);
      && (prepared.Ok? <==> id in t.drafts && IsAt(t.drafts[id], base, draftRevision))
      && (prepared.Ok? ==> prepared.value.rule == id && TakenFrom(prepared.value, t.drafts[id]))
      && (prepared.Err? ==> prepared.error == RevisionConflict)
  {
    ExecInv(Start, actions);
    var t := Exec(Start, actions).tables;
    if id in t.drafts {
      assert RuleSound(t, id);
    }
  }

  lemma StepKeepsVersions(s: State, action: Action, key: (RuleId, int))
    requires Inv(s) && key in s.tables.versions
    ensures var later := Apply(s, action).tables;
      && (key.0 in later.rules ==> key in later.versions)
      && (key in later.versions ==> later.versions[key] == s.tables.versions[key])
  {
    assert key.0 in s.tables.rules && RuleSound(s.tables, key.0);
    if action.Publish? {
      PublishKeepsVersions(s, action.client, key);
    }
  }

  /** A publication takes the number after the current version's, which no version has. */
  lemma PublishKeepsVersions(s: State, client: ClientId, key: (RuleId, int))
    requires key in s.tables.versions && key.0 in s.tables.rules && ChainSound(s.tables, key.0)
    ensures var later := Apply(s, Publish(client)).tables;
      key in later.versions && later.versions[key] == s.tables.versions[key]
  {
  }

  /** A published version is never changed; it disappears only with its rule, and for good. */
  lemma {:induction false} VersionsAreImmutable(s: State, actions: seq<Action>, key: (RuleId, int))
    requires Inv(s) && key.0 in s.created
    requires key.0 in s.tables.rules ==> key in s.tables.versions
    ensures var later := Exec(s, actions).tables;
      && (key.0 in later.rules ==>
            key in s.tables.versions && key in later.versions && later.versions[key] == s.tables.versions[key])
    decreases |actions|
  {
    if actions != [] {
      var next := Apply(s, actions[0]);
      StepInv(s, actions[0]);
      StepCreated(s, actions[0], key.0);
      if key.0 in s.tables.rules {
        StepKeepsVersions(s, actions[0], key);
      }
      VersionsAreImmutable(next, actions[1..], key);
    }
  }

  /** A rule id that was used and is free again stays free. */
  lemma StepCreated(s: State, action: Action, id: RuleId)
    requires id in s.created
    ensures id in Apply(s, action).created
    ensures id !in s.tables.rules ==> id !in Apply(s, action).tables.rules
  {
  }

  /**
   * A publication commits exactly when the draft it read is still the rule's draft and its name is
   * free; it then publishes that draft as the next version and removes it.
   */
  lemma PublishesTheDraftRead(before: seq<Action>, client: ClientId)
    requires client in Exec(Start, before).clients
    ensures var s := Exec(Start, before); var p := s.clients[client].publication; var done := PublishTx(s.tables, p);
      && (done.Ok? <==>
            && p.rule in s.tables.drafts && s.tables.drafts[p.rule] == s.clients[client].read
            && NameFree(s.tables, p.rule, Trim(p.name)))
      && (done.Ok? ==>
            var n := NumberOf(s.clients[client].read.base) + 1;
            && done.value.rules[p.rule].current == Some(n)
            && done.value.versions[(p.rule, n)].definition == s.clients[client].read.definition
            && p.rule !in done.value.drafts)
  {
    ExecInv(Start, before);
    var s := Exec(Start, before);
    var p := s.clients[client].publication;
    assert TakenFrom(p, s.clients[client].read);
    if PublishTx(s.tables, p).Ok? {
      PublishesWhatWasRead(s, client);
    }
    if p.rule in s.tables.drafts {
      assert p.rule in s.tables.rules && RuleSound(s.tables, p.rule);
    }
  }
}
