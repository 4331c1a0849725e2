/** The rule tables, their transactions, and the service methods that read before they write. */
module RuleTables {
  import opened Results
  import opened Text
  import opened RuleModel

  class RulesRepository {
    var rules: map<RuleId, Rule>
    var drafts: map<RuleId, Draft>
    var versions: map<(RuleId, int), Version>

    function Contents(): Tables
      reads this
    {
      Tables(rules, drafts, versions)
    }

    constructor ()
      ensures Contents() == Start.tables
    {
      rules, drafts, versions := map[], map[], map[];
    }

    method CreateRule(definition: Definition) returns (result: Result<Rule, RuleError>)
      modifies this
      ensures match CreateTx(old(Contents()), definition)
        case Err(error) => result == Err(error) && Contents() == old(Contents())
        case Ok(tables) => Contents() == tables && result == Ok(rules[definition.id])
    {
      var name := Trim(definition.name);
      if name == "" {
        return Err(EmptyName);
      }
      if definition.id in rules {
        return Err(AlreadyExists);
      }
      if !NameFree(Contents(), definition.id, name) {
        return Err(NameTaken);
      }
      var rule := Rule(name, definition.enabled, definition.action, definition.defaultAction, None, 1);
      rules := rules[definition.id := rule];
      drafts := drafts[definition.id := Draft(None, definition.schemaVersion, definition, 1)];
      return Ok(rule);
    }

    /** Saves a parsed definition as the rule's draft, first or next. */
    method SaveDraft(id: RuleId, expected: Option<int>, base: Option<int>, definition: Definition)
      returns (result: Result<Draft, RuleError>)
      modifies this
      ensures match SaveTx(old(Contents()), id, expected, base, definition)
        case Err(error) => result == Err(error) && Contents() == old(Contents())
        case Ok(tables) => Contents() == tables && id in drafts && result == Ok(drafts[id])
    {
      if id !in rules {
        return Err(NotFound);
      }
      var current := rules[id].current;
      var draft;
      if id in drafts {
        var existing := drafts[id];
        if expected != Some(existing.revision) || base != existing.base || existing.base != current {
          return Err(RevisionConflict);
        }
        draft := Draft(existing.base, definition.schemaVersion, definition, existing.revision + 1);
      } else {
        if expected.Some? || base != current {
          return Err(RevisionConflict);
        }
        draft := Draft(base, definition.schemaVersion, definition, 1);
      }
      drafts := drafts[id := draft];
      rules := rules[id := rules[id].(revision := rules[id].revision + 1)];
      return Ok(draft);
    }

    method PublishVersion(p: Publication) returns (result: Result<Version, RuleError>)
      modifies this
      ensures match PublishTx(old(Contents()), p)
        case Err(error) => result == Err(error) && Contents() == old(Contents())
        case Ok(tables) =>
          && Contents() == tables
          && p.rule in rules && rules[p.rule].current.Some?
          && (p.rule, rules[p.rule].current.value) in versions
          && result == Ok(versions[(p.rule, rules[p.rule].current.value)])
    {
      if p.rule !in rules {
        return Err(NotFound);
      }
      var rule := rules[p.rule];
      if p.base != rule.current || p.rule !in drafts {
        return Err(RevisionConflict);
      }
      var draft := drafts[p.rule];
      if draft.base != p.base || draft.revision != p.draftRevision {
        return Err(RevisionConflict);
      }
      if !NameFree(Contents(), p.rule, Trim(p.name)) {
        return Err(NameTaken);
      }
      var number := NumberOf(rule.current) + 1;
      var version := Version(p.base, draft.schemaVersion, draft.definition);
      versions := versions[(p.rule, number) := version];
      rules := rules[p.rule :=
        Rule(Trim(p.name), p.enabled, p.action, p.defaultAction, Some(number), rule.revision + 1)];
      drafts := drafts - {p.rule};
      return Ok(version);
    }

    method DeleteRule(id: RuleId, expectedRevision: int) returns (result: Result<(), RuleError>)
      modifies this
      ensures match DeleteTx(old(Contents()), id, expectedRevision)
        case Err(error) => result == Err(error) && Contents() == old(Contents())
        case Ok(tables) => result == Ok(()) && Contents() == tables
    {
      if id !in rules {
        return Err(NotFound);
      }
      if rules[id].revision != expectedRevision {
        return Err(RevisionConflict);
      }
      rules := rules - {id};
      drafts := drafts - {id};
      versions := map key | key in versions && key.0 != id :: versions[key];
      return Ok(());
    }

    /** The service's half of publishing that reads: nothing is written here. */
    method PreparePublication(id: RuleId, base: Option<int>, draftRevision: int)
      returns (result: Result<Publication, RuleError>)
      ensures result.Ok? <==> id in drafts && IsAt(drafts[id], base, draftRevision) && drafts[id].definition.id == id
      ensures result.Ok? ==> result.value.rule == id && TakenFrom(result.value, drafts[id])
      ensures result == Err(WrongRule)
        <==> id in drafts && IsAt(drafts[id], base, draftRevision) && drafts[id].definition.id != id
      ensures result.Err? ==> result.error == WrongRule || result.error == RevisionConflict
    {
      if id !in drafts {
        return Err(RevisionConflict);
      }
      var draft := drafts[id];
      if draft.base != base || draft.revision != draftRevision {
        return Err(RevisionConflict);
      }
      var definition := draft.definition;
      if definition.id != id {
        return Err(WrongRule);
      }
      return Ok(Publication(id, base, draftRevision, definition.name, definition.enabled, definition.action,
                            definition.defaultAction));
    }

    /** The service's `save_draft`: the definition is parsed before the transaction. */
    method SaveSubmitted(id: RuleId, expected: Option<int>, base: Option<int>, json: Json)
      returns (result: Result<Draft, RuleError>)
      modifies this
      ensures match Save(old(Contents()), id, expected, base, json)
        case Err(error) => result == Err(error) && Contents() == old(Contents())
        case Ok(tables) => Contents() == tables && id in drafts && result == Ok(drafts[id])
    {
      if json.Malformed? {
        return Err(InvalidDefinition);
      }
      if json.definition.id != id {
        return Err(WrongRule);
      }
      result := SaveDraft(id, expected, base, json.definition);
    }
  }
}
