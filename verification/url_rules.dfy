/**
 The URL access rules of the HTTP filter chain: an ordered table from path
 pattern to requirement, where the first matching rule decides and every
 path no rule matches needs an authenticated caller.
 */
module UrlRules {
  import Callers

  datatype Requirement = PermitAll | RequireRole(role: string) | RequireAuthenticated

  // A rule for the pattern formed by `base` followed by the any-depth wildcard.
  datatype Rule = Rule(base: string, requirement: Requirement)

  const Rules: seq<Rule> := [
    Rule("/api/public", PermitAll),
    Rule("/api/health", PermitAll),
    Rule("/api/docs", PermitAll),
    Rule("/api/user", RequireRole("USER")),
    Rule("/api/admin", RequireRole("ADMIN"))
  ]

  // A wildcard pattern matches its base path itself and every path below it.
  predicate Under(base: string, path: string) {
    path == base || base + "/" <= path
  }

  /** The requirement of the first rule whose pattern matches; the catch-all otherwise. */
  function FirstMatch(rules: seq<Rule>, path: string): (req: Requirement)
    ensures (forall i :: 0 <= i < |rules| ==> !Under(rules[i].base, path)) ==> req == RequireAuthenticated
  {
    if |rules| == 0 then RequireAuthenticated
    else if Under(rules[0].base, path) then rules[0].requirement
    else FirstMatch(rules[1..], path)
  }

  function RequirementFor(path: string): Requirement {
    FirstMatch(Rules, path)
  }

  /** `permitAll()`, `hasRole(r)` and `authenticated()`. */
  predicate Permits(req: Requirement, caller: Callers.Caller) {
    match req
    case PermitAll => true
    case RequireRole(r) => Callers.HasRole(caller, r)
    case RequireAuthenticated => caller.authenticated
  }

  predicate Authorize(caller: Callers.Caller, path: string) {
    Permits(RequirementFor(path), caller)
  }

  lemma UnderAgreesWithBase(base: string, path: string, i: int)
    requires Under(base, path)
    requires 0 <= i < |base|
    ensures i < |path| && path[i] == base[i]
  {
    if path != base {
      assert (base + "/")[i] == base[i];
    }
  }

  /** No path is matched by two patterns of the table, so the order of the
      rules does not matter. */
  lemma PatternsDisjoint(path: string, i: int, j: int)
    requires 0 <= i < |Rules| && 0 <= j < |Rules| && i != j
    requires Under(Rules[i].base, path)
    ensures !Under(Rules[j].base, path)
  {
    if Under(Rules[j].base, path) {
      UnderAgreesWithBase(Rules[i].base, path, 5);
      UnderAgreesWithBase(Rules[j].base, path, 5);
      assert false;
    }
  }

  lemma {:induction false} FirstMatchFindsOnlyMatch(rules: seq<Rule>, path: string, k: int)
    requires 0 <= k < |rules| && Under(rules[k].base, path)
    requires forall j :: 0 <= j < |rules| && j != k ==> !Under(rules[j].base, path)
    ensures FirstMatch(rules, path) == rules[k].requirement
  {
    if k > 0 {
      FirstMatchFindsOnlyMatch(rules[1..], path, k - 1);
    }
  }

  /** The rule that matches a path decides it, wherever it sits in the table. */
  lemma MatchingRuleDecides(path: string, k: int)
    requires 0 <= k < |Rules| && Under(Rules[k].base, path)
    ensures RequirementFor(path) == Rules[k].requirement
    ensures forall j :: 0 <= j < |Rules| && j != k ==> !Under(Rules[j].base, path)
  {
    forall j | 0 <= j < |Rules| && j != k
      ensures !Under(Rules[j].base, path)
    {
      PatternsDisjoint(path, k, j);
    }
    FirstMatchFindsOnlyMatch(Rules, path, k);
  }

  /** If some rule of a table matches and every matching rule carries the
      same requirement, that requirement is the first match's. */
  lemma {:induction false} FirstMatchOfAgreeingRules(rules: seq<Rule>, path: string, req: Requirement)
    requires exists r :: r in rules && Under(r.base, path)
    requires forall r :: r in rules && Under(r.base, path) ==> r.requirement == req
    ensures FirstMatch(rules, path) == req
  {
    var r :| r in rules && Under(r.base, path);
    if !Under(rules[0].base, path) {
      assert r in rules[1..];
      FirstMatchOfAgreeingRules(rules[1..], path, req);
    }
  }

  /** Any table holding exactly the rules of `Rules`, in any order and with
      any repetition, decides every path as `Rules` does. */
  lemma RuleOrderIrrelevant(rules: seq<Rule>, path: string)
    requires forall r :: r in rules <==> r in Rules
    ensures FirstMatch(rules, path) == RequirementFor(path)
  {
    if k :| 0 <= k < |Rules| && Under(Rules[k].base, path) {
      MatchingRuleDecides(path, k);
      forall r | r in rules && Under(r.base, path)
        ensures r.requirement == Rules[k].requirement
      {
        var i :| 0 <= i < |Rules| && Rules[i] == r;
        if i != k {
          PatternsDisjoint(path, k, i);
        }
      }
      assert Rules[k] in rules;
      FirstMatchOfAgreeingRules(rules, path, Rules[k].requirement);
    } else {
      forall i | 0 <= i < |rules|
        ensures !Under(rules[i].base, path)
      {
        assert rules[i] in Rules;
        var j :| 0 <= j < |Rules| && Rules[j] == rules[i];
      }
    }
  }

  predicate IsOpenPath(path: string) {
    Under("/api/public", path) || Under("/api/health", path) || Under("/api/docs", path)
  }

  /** The access table, stated per path family. */
  lemma UrlAccess(caller: Callers.Caller, path: string)
    ensures IsOpenPath(path) ==> Authorize(caller, path)
    ensures Under("/api/user", path) ==> (Authorize(caller, path) <==> "ROLE_USER" in caller.authorities)
    ensures Under("/api/admin", path) ==> (Authorize(caller, path) <==> "ROLE_ADMIN" in caller.authorities)
    ensures !IsOpenPath(path) && !Under("/api/user", path) && !Under("/api/admin", path) ==>
              (Authorize(caller, path) <==> caller.authenticated)
  {
    assert Callers.RolePrefix[0] != "USER"[0];
    assert Callers.RoleAuthority("USER") == "ROLE_USER";
    Callers.AdminIsRoleAdmin(caller);
    if Under("/api/public", path) {
      MatchingRuleDecides(path, 0);
      assert !Under(Rules[3].base, path) && !Under(Rules[4].base, path);
    }
    else if Under("/api/health", path) {
      MatchingRuleDecides(path, 1);
      assert !Under(Rules[3].base, path) && !Under(Rules[4].base, path);
    }
    else if Under("/api/docs", path) {
      MatchingRuleDecides(path, 2);
      assert !Under(Rules[3].base, path) && !Under(Rules[4].base, path);
    }
    else if Under("/api/user", path) {
      MatchingRuleDecides(path, 3);
      assert !Under(Rules[4].base, path);
    }
    else if Under("/api/admin", path) { MatchingRuleDecides(path, 4); }
  }
}
