/** The host packet filter: its rule sets, at most one of which is active, and the hook. */
module Filter {
  import opened Words
  import opened FilterRules

  const MAX_RULE_SETS: nat := 32
  const MAX_RULES_PER_SET: nat := 64

  const ESRCH: int := 3
  const ENOMEM: int := 12
  const EBUSY: int := 16
  const EEXIST: int := 17
  const EINVAL: int := 22
  const EOVERFLOW: int := 75

  class Rule {
    var next: Rule?
    const body: RuleBody
    // The set that the rule is made for.
    ghost const owner: RuleSet

    constructor (body: RuleBody, ghost owner: RuleSet)
      ensures this.body == body && this.owner == owner && next == null
    {
      this.body, this.owner, next := body, owner, null;
    }
  }

  ghost function RuleAt(rules: seq<Rule>, k: int): Rule? {
    if 0 <= k < |rules| then rules[k] else null
  }

  class RuleSet {
    var next: RuleSet?
    const id: uint32
    var enabled: bool
    var action: uint16
    var list: Rule?
    // The rule whose next pointer ends the list; null while that is the list pointer itself.
    var tail: Rule?
    var numRules: nat
    ghost var rules: seq<Rule>
    // The requests that the rules were made for.
    ghost var requests: seq<Request>

    constructor (id: uint32, defaultAction: uint16, next: RuleSet?)
      ensures this.id == id && action == defaultAction && this.next == next
      ensures !enabled && rules == [] && requests == [] && RulesOK()
    {
      this.id, action, this.next := id, defaultAction, next;
      enabled, list, tail, numRules, rules, requests := false, null, null, 0, [], [];
    }

    /** The list is what rules says, tail points at its end, and numRules is its length. */
    ghost predicate RulesOK()
      reads `list, `tail, `numRules, `rules, `requests, rules`next
    {
      && list == RuleAt(rules, 0) && tail == RuleAt(rules, |rules| - 1)
      && numRules == |rules| <= MAX_RULES_PER_SET
      && (forall k :: 0 <= k < |rules| ==> rules[k].next == RuleAt(rules, k + 1) && rules[k].owner == this)
      && (forall a, b :: 0 <= a < b < |rules| ==> rules[a] != rules[b])
      && AllStored(rules, requests)
    }

    ghost function Bodies(): seq<RuleBody>
      reads `rules
    {
      BodiesOf(rules)
    }

    /** Adds a rule at the end. */
    method Append(newRule: Rule, ghost req: Request)
      requires RulesOK() && numRules < MAX_RULES_PER_SET
      requires newRule.next == null && newRule !in rules && newRule.owner == this
      requires StoredFor(newRule.body, req)
      modifies `list, `tail, `numRules, `rules, `requests, rules`next
      ensures RulesOK() && rules == old(rules) + [newRule] && newRule.next == null
      ensures requests == old(requests) + [req] && Bodies() == old(Bodies()) + [newRule.body]
    {
      hide AllStored, StoredFor, BodiesOf;
      OneMoreStored(rules, requests, newRule, req);
      if tail == null {
        list := newRule;
      } else {
        tail.next := newRule;
      }
      tail := newRule;
      numRules := numRules + 1;
      rules, requests := rules + [newRule], requests + [req];
    }

    /** Walks the rules for the first one that matches. */
    method WalkRules(blockByDefault: bool, p: Packet) returns (verdict: Verdict)
      requires RulesOK() && (blockByDefault <==> action == RULE_BLOCK)
      ensures verdict == FirstMatch(Bodies(), action, p)
    {
      hide Matches, StoredFor;
      var currRule := list;
      ghost var k := 0;
      while currRule != null
        invariant k <= |rules| && currRule == RuleAt(rules, k)
        invariant FirstMatch(Bodies(), action, p) == FirstMatch(Bodies()[k..], action, p)
        decreases |rules| - k
      {
        var matched := RuleMatches(currRule.body, p);
        if matched {
          return if currRule.body.action == RULE_ALLOW then ACCEPT else DROP;
        }
        assert Bodies()[k..][1..] == Bodies()[k + 1..];
        currRule := currRule.next;
        k := k + 1;
      }
      return if blockByDefault then DROP else ACCEPT;
    }
  }

  ghost predicate StoredFor(body: RuleBody, req: Request) {
    Accepted(req) && body == Stored(req)
  }

  /** Each rule is what is stored for an accepted request. */
  ghost predicate AllStored(rules: seq<Rule>, requests: seq<Request>) {
    |requests| == |rules| && forall k :: 0 <= k < |rules| ==> StoredFor(rules[k].body, requests[k])
  }

  ghost function BodiesOf(rules: seq<Rule>): (r: seq<RuleBody>)
    ensures |r| == |rules|
    ensures forall i :: 0 <= i < |rules| ==> r[i] == rules[i].body
  {
    if rules == [] then [] else BodiesOf(rules[..|rules| - 1]) + [rules[|rules| - 1].body]
  }

  lemma OneMoreStored(rules: seq<Rule>, requests: seq<Request>, newRule: Rule, req: Request)
    requires AllStored(rules, requests) && StoredFor(newRule.body, req)
    ensures AllStored(rules + [newRule], requests + [req])
    ensures BodiesOf(rules + [newRule]) == BodiesOf(rules) + [newRule.body]
  {
    hide StoredFor;
    assert (rules + [newRule])[..|rules|] == rules;
  }

  ghost function SetAt(sets: seq<RuleSet>, k: int): RuleSet? {
    if 0 <= k < |sets| then sets[k] else null
  }

  ghost predicate IdsUnique(sets: seq<RuleSet>) {
    forall a, b :: 0 <= a < b < |sets| ==> sets[a] != sets[b] && sets[a].id != sets[b].id
  }

  lemma IdsWith(first: RuleSet, sets: seq<RuleSet>)
    requires IdsUnique(sets) && first !in sets && forall s :: s in sets ==> s.id != first.id
    ensures IdsUnique([first] + sets)
  {}

  /** What taking number k out of a list leaves. */
  lemma Removed(sets: seq<RuleSet>, k: nat, r: seq<RuleSet>)
    requires k < |sets| && r == sets[..k] + sets[k + 1..] && IdsUnique(sets)
    ensures IdsUnique(r) && |r| == |sets| - 1
    ensures forall m :: m < k ==> SetAt(r, m) == SetAt(sets, m)
    ensures forall m :: m >= k ==> SetAt(r, m) == SetAt(sets, m + 1)
    ensures forall s :: s in r <==> s in sets && s != sets[k]
  {
    forall s | s in sets && s != sets[k] ensures s in r {
      var m :| 0 <= m < |sets| && sets[m] == s;
      assert r[if m < k then m else m - 1] == s;
    }
  }

  class Filter {
    var installedFilterCallback: bool
    var ruleSetHead: RuleSet?
    var numRuleSets: int
    var activeRule: RuleSet?

    // The rule sets in the order of the list, and all rules there ever were.
    ghost var sets: seq<RuleSet>
    ghost var nodes: set<Rule>

    ghost predicate Linked()
      reads `ruleSetHead, `sets, sets`next
    {
      && ruleSetHead == SetAt(sets, 0)
      && (forall k :: 0 <= k < |sets| ==> sets[k].next == SetAt(sets, k + 1))
      && IdsUnique(sets)
    }

    ghost predicate Listed()
      reads `ruleSetHead, `numRuleSets, `sets, sets`next
    {
      Linked() && numRuleSets == |sets| <= MAX_RULE_SETS
    }

    ghost predicate AllRulesOK()
      reads `sets, `nodes, sets`list, sets`tail, sets`numRules, sets`rules, sets`requests, nodes`next
    {
      && (forall s: RuleSet, r: Rule :: s in sets && r in s.rules ==> r in nodes)
      && (forall s :: s in sets ==> s.RulesOK())
    }

    /** A rule set is enabled exactly if it is the active one, and the hook is only installed while
        there is an active one. */
    ghost predicate ActiveOK()
      reads `sets, `activeRule, `installedFilterCallback, sets`enabled
    {
      && (forall s :: s in sets ==> (s.enabled <==> s == activeRule))
      && (activeRule != null ==> activeRule in sets)
      && (installedFilterCallback ==> activeRule != null)
    }

    ghost predicate Valid()
      reads this, sets, nodes
    {
      var whole := Listed() && AllRulesOK() && ActiveOK();
      whole
    }

    constructor ()
      ensures Valid() && sets == [] && activeRule == null && !installedFilterCallback
    {
      installedFilterCallback, ruleSetHead, numRuleSets, activeRule := false, null, 0, null;
      sets, nodes := [], {};
    }

    /** The rule set with an id, and the one before it in the list. */
    method FindRuleSetById(id: uint32) returns (curr: RuleSet?, prev: RuleSet?, ghost k: nat)
      requires Listed()
      ensures curr == null ==> forall s :: s in sets ==> s.id != id
      ensures curr != null ==> k < |sets| && sets[k] == curr && curr.id == id && prev == SetAt(sets, k - 1)
    {
      hide IdsUnique, RuleSet.RulesOK;
      curr, prev, k := ruleSetHead, null, 0;
      while curr != null
        invariant k <= |sets| && curr == SetAt(sets, k) && prev == SetAt(sets, k - 1)
        invariant forall j :: 0 <= j < k ==> sets[j].id != id
        decreases |sets| - k
      {
        if curr.id == id {
          return;
        }
        prev := curr;
        curr := curr.next;
        k := k + 1;
      }
    }

    method CreateRuleSet(id: uint32, defaultAction: uint16, granted: bool) returns (r: int)
      requires Valid()
      modifies `ruleSetHead, `numRuleSets, `sets
      ensures Valid()
      ensures r == if |old(sets)| == MAX_RULE_SETS then -EOVERFLOW
                   else if exists s :: s in old(sets) && s.id == id then -EEXIST
                   else if !granted then -ENOMEM else 0
      ensures r != 0 ==> unchanged(this)
      ensures r == 0 ==>
        && |sets| == |old(sets)| + 1 && sets[1..] == old(sets) && fresh(sets[0])
        && sets[0].id == id && sets[0].action == defaultAction && sets[0].requests == [] && !sets[0].enabled
    {
      hide AllRulesOK, ActiveOK;
      if numRuleSets >= MAX_RULE_SETS {
        return -EOVERFLOW;
      }
      var curr, _, _ := FindRuleSetById(id);
      if curr != null {
        return -EEXIST;
      }
      if !granted {
        return -ENOMEM;
      }
      var newRuleSet := new RuleSet(id, defaultAction, ruleSetHead);
      Push(newRuleSet);
      return 0;
    }

    /** Puts a new, empty rule set at the head of the list. */
    method Push(newRuleSet: RuleSet)
      requires Valid() && |sets| < MAX_RULE_SETS && newRuleSet !in sets && newRuleSet.next == ruleSetHead
      requires newRuleSet.RulesOK() && newRuleSet.rules == [] && !newRuleSet.enabled
      requires forall s :: s in sets ==> s.id != newRuleSet.id
      modifies `ruleSetHead, `numRuleSets, `sets
      ensures Valid() && sets == [newRuleSet] + old(sets)
    {
      hide RuleSet.RulesOK, IdsUnique;
      ghost var before := sets;
      IdsWith(newRuleSet, before);
      LinksOf();
      hide Linked, AllRulesOK, ActiveOK;
      SetsOK();
      numRuleSets := numRuleSets + 1;
      ruleSetHead := newRuleSet;
      sets := [newRuleSet] + sets;
      PushedLinked(newRuleSet, before);
      PushedOK(newRuleSet, before);
    }

    lemma LinksOf()
      requires Linked()
      ensures ruleSetHead == SetAt(sets, 0) && forall k :: 0 <= k < |sets| ==> sets[k].next == SetAt(sets, k + 1)
    {}

    lemma PushedLinked(newRuleSet: RuleSet, before: seq<RuleSet>)
      requires sets == [newRuleSet] + before && IdsUnique(sets)
      requires ruleSetHead == newRuleSet && newRuleSet.next == SetAt(before, 0)
      requires forall k :: 0 <= k < |before| ==> before[k].next == SetAt(before, k + 1)
      ensures Linked()
    {
      forall k | 0 <= k < |sets| ensures sets[k].next == SetAt(sets, k + 1) {
        if k > 0 { assert before[k - 1].next == SetAt(before, k); }
      }
    }

    lemma SetsOK()
      requires AllRulesOK() && ActiveOK()
      ensures forall s :: s in sets ==> s.RulesOK() && (s.enabled <==> s == activeRule)
      ensures forall s: RuleSet, r: Rule :: s in sets && r in s.rules ==> r in nodes
      ensures (activeRule != null ==> activeRule in sets) && (installedFilterCallback ==> activeRule != null)
    {}

    lemma PushedOK(newRuleSet: RuleSet, before: seq<RuleSet>)
      requires sets == [newRuleSet] + before && newRuleSet.RulesOK() && newRuleSet.rules == [] && !newRuleSet.enabled
      requires forall s :: s in before ==> s.RulesOK() && (s.enabled <==> s == activeRule)
      requires forall s: RuleSet, r: Rule :: s in before && r in s.rules ==> r in nodes
      requires newRuleSet !in before && (activeRule != null ==> activeRule in before)
      requires installedFilterCallback ==> activeRule != null
      ensures AllRulesOK() && ActiveOK()
    {
      hide RuleSet.RulesOK;
    }

    /** Deletes a rule set that is not enabled. */
    method DeleteRuleSet(id: uint32) returns (r: int, ghost k: nat)
      requires Valid()
      modifies `ruleSetHead, `numRuleSets, `sets, sets`next, sets`list, nodes`next
      ensures Valid() && activeRule == old(activeRule) && installedFilterCallback == old(installedFilterCallback)
      ensures (forall s :: s in old(sets) ==> s.id != id) <==> r == -ESRCH
      ensures r == 0 || r == -ESRCH || r == -EBUSY
      ensures r == -EBUSY ==> k < |sets| && sets[k].id == id && sets[k].enabled
      ensures r != 0 ==> sets == old(sets)
      ensures r == 0 ==>
        && k < |old(sets)| && old(sets)[k].id == id && !old(sets)[k].enabled
        && sets == old(sets)[..k] + old(sets)[k + 1..]
    {
      hide AllRulesOK, ActiveOK;
      var curr: RuleSet?, prev: RuleSet?;
      curr, prev, k := FindRuleSetById(id);
      if curr == null {
        return -ESRCH, k;
      }
      if curr.enabled {
        return -EBUSY, k;
      }
      Discard(curr, prev, k);
      return 0, k;
    }

    /** Takes a rule set off the list and frees its rules. */
    method Discard(curr: RuleSet, prev: RuleSet?, ghost k: nat)
      requires Valid() && k < |sets| && sets[k] == curr && prev == SetAt(sets, k - 1) && !curr.enabled
      modifies `ruleSetHead, `numRuleSets, `sets, sets`next, sets`list, nodes`next
      ensures Valid() && sets == old(sets)[..k] + old(sets)[k + 1..]
    {
      hide Linked, IdsUnique, RuleSet.RulesOK;
      ghost var rest := sets[..k] + sets[k + 1..];
      NotAmong(k, rest);
      Unlink(curr, prev, k);
      FreeRules(curr);
      numRuleSets := numRuleSets - 1;
    }

    lemma NotAmong(k: nat, rest: seq<RuleSet>)
      requires Linked() && k < |sets| && rest == sets[..k] + sets[k + 1..]
      ensures |rest| == |sets| - 1 && forall s :: s in rest <==> s in sets && s != sets[k]
    {
      Removed(sets, k, rest);
    }

    method Unlink(curr: RuleSet, prev: RuleSet?, ghost k: nat)
      requires Linked() && k < |sets| && sets[k] == curr && prev == SetAt(sets, k - 1)
      modifies `ruleSetHead, `sets, sets`next
      ensures Linked() && sets == old(sets)[..k] + old(sets)[k + 1..]
    {
      Removed(sets, k, sets[..k] + sets[k + 1..]);
      if prev == null {
        ruleSetHead := curr.next;
      } else {
        prev.next := curr.next;
      }
      sets := sets[..k] + sets[k + 1..];
    }

    /** Frees the rules of a set that is off the list. */
    method FreeRules(curr: RuleSet)
      requires curr !in sets && curr.RulesOK() && AllRulesOK()
      modifies curr`list, curr.rules`next
      ensures AllRulesOK()
    {
      FreeList(curr);
    }

    method FreeList(curr: RuleSet)
      requires curr.RulesOK()
      modifies curr`list, curr.rules`next
    {
      var currRule := curr.list;
      curr.list := null;
      ghost var k := 0;
      while currRule != null
        invariant k <= |curr.rules| && currRule == RuleAt(curr.rules, k)
        invariant forall j :: k <= j < |curr.rules| ==> curr.rules[j].next == RuleAt(curr.rules, j + 1)
        decreases |curr.rules| - k
      {
        var temp := currRule.next;
        currRule.next := null;
        currRule := temp;
        k := k + 1;
      }
    }

    method InsertHostFilterCallback(registerErr: int) returns (retval: int)
      modifies `installedFilterCallback
      ensures retval == if old(installedFilterCallback) then 0 else registerErr
      ensures installedFilterCallback <==> retval == 0
    {
      retval := 0;
      if installedFilterCallback {
        return;
      }
      retval := registerErr;
      if retval != 0 {
        return;
      }
      installedFilterCallback := true;
    }

    method RemoveHostFilterCallback()
      modifies `installedFilterCallback
      ensures !installedFilterCallback
    {
      if installedFilterCallback {
        installedFilterCallback := false;
      }
    }

    /** Makes a rule set the active one, or no longer so, and changes its default action. If the hook
        cannot be registered the call fails, but the set is active all the same. */
    method ChangeRuleSet(id: uint32, enable: bool, disable: bool, action: uint32, registerErr: int)
      returns (retval: int, ghost k: nat)
      requires Valid()
      modifies `activeRule, `installedFilterCallback, sets`enabled, sets`action
      ensures Valid() && k <= |sets|
      ensures k == |sets| ==> (forall s :: s in sets ==> s.id != id) && retval == -ESRCH
      ensures k < |sets| ==> sets[k].id == id
      ensures k < |sets| && enable ==>
        && activeRule == sets[k] && (installedFilterCallback <==> retval == 0)
        && retval == if old(installedFilterCallback) then 0 else registerErr
      ensures k < |sets| && !enable && disable ==>
        (if old(activeRule == sets[k]) then retval == 0 && activeRule == null && !installedFilterCallback
         else retval == -EINVAL)
      ensures k < |sets| && !enable && !disable ==> retval == 0
      ensures !enable && (disable ==> retval != 0) ==> unchanged(`activeRule, `installedFilterCallback, sets`enabled)
      ensures k < |sets| && !enable && disable && old(activeRule != sets[k]) ==> sets[k].action == old(sets[k].action)
      ensures k < |sets| && (!enable && disable ==> old(activeRule == sets[k])) ==>
        sets[k].action == ChangedAction(enable, disable, action, old(sets[k].action))
      ensures forall s :: s in sets && (k < |sets| ==> s != sets[k]) ==> s.action == old(s.action)
    {
      hide Linked, AllRulesOK, ActiveOK, IdsUnique, SetAt;
      var curr, _, at := FindRuleSetById(id);
      k := at;
      if curr == null {
        return -ESRCH, |sets|;
      }
      retval := ChangeFound(curr, enable, disable, action, registerErr);
    }

    method ChangeFound(curr: RuleSet, enable: bool, disable: bool, action: uint32, registerErr: int)
      returns (retval: int)
      requires ActiveOK() && curr in sets
      modifies `activeRule, `installedFilterCallback, sets`enabled, curr`action
      ensures ActiveOK()
      ensures enable ==>
        && activeRule == curr && (installedFilterCallback <==> retval == 0)
        && retval == if old(installedFilterCallback) then 0 else registerErr
      ensures !enable && disable ==>
        if old(activeRule == curr) then retval == 0 && activeRule == null && !installedFilterCallback
        else retval == -EINVAL
      ensures !enable && !disable ==> retval == 0
      ensures !enable && (disable ==> retval != 0) ==> unchanged(`activeRule, `installedFilterCallback, sets`enabled)
      ensures curr.action ==
        if !enable && disable && old(activeRule != curr) then old(curr.action)
        else ChangedAction(enable, disable, action, old(curr.action))
    {
      if enable {
        if action != RULE_NO_CHANGE as uint32 {
          curr.action := action % 0x1_0000;
        }
        Activate(curr);
        retval := InsertHostFilterCallback(registerErr);
      } else if disable {
        if !curr.enabled {
          return -EINVAL;
        }
        Deactivate(curr);
        if action != RULE_NO_CHANGE as uint32 {
          curr.action := action % 0x1_0000;
        }
        retval := 0;
      } else {
        curr.action := action % 0x1_0000;
        retval := 0;
      }
    }

    method Deactivate(curr: RuleSet)
      requires ActiveOK() && curr in sets && curr.enabled
      modifies `activeRule, `installedFilterCallback, curr`enabled
      ensures ActiveOK() && activeRule == null && !installedFilterCallback
    {
      RemoveHostFilterCallback();
      activeRule := null;
      curr.enabled := false;
    }

    /** Makes a rule set the only enabled one. */
    method Activate(curr: RuleSet)
      requires ActiveOK() && curr in sets
      modifies `activeRule, sets`enabled
      ensures ActiveOK() && activeRule == curr
    {
      curr.enabled := true;
      var oldActive := activeRule;
      activeRule := curr;
      if oldActive != null && oldActive != curr {
        oldActive.enabled := false;
      }
    }

    /** Adds a rule at the end of a set. The request must have passed validation, which has cleared
        the address bits that do not count. */
    method AddIPv4Rule(id: uint32, req: Request, addrs: seq<RuleAddr>, granted: bool) returns (r: int, ghost k: nat)
      requires Valid() && Accepted(req) && addrs == Masked(req.addrs)
      modifies `nodes, sets`list, sets`tail, sets`numRules, sets`rules, sets`requests, nodes`next
      ensures Valid() && k <= |sets|
      ensures k == |sets| ==> (forall s :: s in sets ==> s.id != id) && r == -ESRCH
      ensures k < |sets| ==>
        && sets[k].id == id
        && r == (if |old(sets[k].rules)| == MAX_RULES_PER_SET then -EOVERFLOW else if !granted then -ENOMEM else 0)
      ensures r == 0 ==> sets[k].requests == old(sets[k].requests) + [req]
      ensures forall s :: s in sets && (r == 0 ==> s != sets[k]) ==> s.requests == old(s.requests)
    {
      hide Narrowed, Masked, ActiveOK, AddrsOK, PortsOK, Linked, IdsUnique, AllStored;
      var curr, _, at := FindRuleSetById(id);
      k := at;
      if curr == null {
        return -ESRCH, |sets|;
      }
      assert sets[k].RulesOK();
      if curr.numRules >= MAX_RULES_PER_SET {
        return -EOVERFLOW, k;
      }
      if !granted {
        return -ENOMEM, k;
      }
      var body := MakeBody(req.(addrs := addrs));
      var newRule := new Rule(body, curr);
      AppendTo(curr, newRule, req);
      return 0, k;
    }

    /** The command to add a rule: what does not pass validation is refused, and nothing changes. */
    method HandleAddIPv4Rule(id: uint32, req: Request, granted: bool) returns (r: int, ghost k: nat)
      requires Valid()
      modifies `nodes, sets`list, sets`tail, sets`numRules, sets`rules, sets`requests, nodes`next
      ensures Valid()
      ensures r == -EINVAL <==> id == 0 || !Accepted(req)
      ensures r == 0 ==> k < |sets| && sets[k].id == id && sets[k].requests == old(sets[k].requests) + [req]
      ensures forall s :: s in sets && (r == 0 ==> s != sets[k]) ==> s.requests == old(s.requests)
    {
      hide Valid, Accepted, Masked;
      var ok, addrs := ValidateRule(req);
      if !ok || id == 0 {
        return -EINVAL, 0;
      }
      var error, at := AddIPv4Rule(id, req, addrs, granted);
      return error, at;
    }

    method AppendTo(curr: RuleSet, newRule: Rule, ghost req: Request)
      requires AllRulesOK() && curr in sets && newRule !in nodes && newRule.next == null && newRule.owner == curr
      requires curr.numRules < MAX_RULES_PER_SET && StoredFor(newRule.body, req)
      modifies `nodes, curr`list, curr`tail, curr`numRules, curr`rules, curr`requests, nodes`next
      ensures AllRulesOK() && nodes == old(nodes) + {newRule}
      ensures curr.requests == old(curr.requests) + [req]
    {
      hide RuleSet.RulesOK, StoredFor, AllStored, Accepted;
      forall s | s in sets && s != curr
        ensures forall i, j :: 0 <= i < |s.rules| && 0 <= j < |curr.rules| ==> s.rules[i] != curr.rules[j]
      {
        OwnersApart(s, curr);
      }
      InRules(curr);
      curr.Append(newRule, req);
      nodes := nodes + {newRule};
    }

    static lemma OwnersApart(s: RuleSet, t: RuleSet)
      requires s != t && s.RulesOK() && t.RulesOK()
      ensures forall i, j :: 0 <= i < |s.rules| && 0 <= j < |t.rules| ==> s.rules[i] != t.rules[j]
    {}

    static lemma InRules(s: RuleSet)
      requires s.RulesOK()
      ensures s.numRules == |s.rules|
    {}

    /** Stops the hook and frees everything. */
    method VNetFilter_Shutdown()
      requires Valid()
      modifies this, sets, nodes
      ensures Valid() && sets == [] && ruleSetHead == null && numRuleSets == 0
      ensures activeRule == null && !installedFilterCallback
    {
      hide Valid;
      StopFiltering();
      while ruleSetHead != null
        invariant Valid() && activeRule == null && !installedFilterCallback
        invariant nodes == old(nodes) && |sets| <= |old(sets)|
        invariant forall i :: 0 <= i < |sets| ==> sets[i] == old(sets)[i + |old(sets)| - |sets|]
        decreases |sets|
      {
        DeleteFirst();
      }
      NoneLeft();
    }

    lemma NoneLeft()
      requires Valid() && ruleSetHead == null
      ensures sets == [] && numRuleSets == 0
    {}

    method StopFiltering()
      requires Valid()
      modifies `activeRule, `installedFilterCallback, sets`enabled, sets`action
      ensures Valid() && activeRule == null && !installedFilterCallback
    {
      hide AllRulesOK;
      RemoveHostFilterCallback();
      if activeRule != null {
        ghost var a :| 0 <= a < |sets| && sets[a] == activeRule;
        var _, k := ChangeRuleSet(activeRule.id, false, true, RULE_NO_CHANGE as uint32, 0);
      }
    }

    method DeleteFirst()
      requires Valid() && activeRule == null && ruleSetHead != null
      modifies `ruleSetHead, `numRuleSets, `sets, sets`next, sets`list, nodes`next
      ensures Valid() && |old(sets)| > 0 && sets == old(sets)[1..]
    {
      hide AllRulesOK;
      var _, k := DeleteRuleSet(ruleSetHead.id);
    }

    /** The hook: an installed one finds a rule set to go by. */
    method VNetFilterHookFn(p: Packet) returns (verdict: Verdict)
      requires Valid() && installedFilterCallback
      ensures activeRule != null && verdict == Decide(activeRule.Bodies(), activeRule.action, p)
    {
      hide Linked, FirstMatch, Loopback;
      verdict := ACCEPT;
      var currRuleSet := activeRule;
      if !p.ipv4 {
        return;
      }
      var blockByDefault := currRuleSet.action == RULE_BLOCK;
      if p.length < 0 {
        return DROP;
      }
      if Loopback(p.RemoteAddr()) {
        return;
      }
      if p.HasPorts() && p.length < 4 {
        return DROP;
      }
      verdict := currRuleSet.WalkRules(blockByDefault, p);
    }

    /** The first request in the order of insertion that describes a packet decides on it. */
    lemma FirstRequestRules(p: Packet, k: nat)
      requires Valid() && activeRule != null && k <= |activeRule.requests|
      requires forall i :: 0 <= i < k ==> !Describes(activeRule.requests[i], p)
      requires k < |activeRule.requests| ==> Describes(activeRule.requests[k], p)
      requires p.ipv4 && p.length >= 0 && (p.HasPorts() ==> p.length >= 4) && !Loopback(p.RemoteAddr())
      ensures Decide(activeRule.Bodies(), activeRule.action, p) ==
        if k == |activeRule.requests| then ByDefault(activeRule.action)
        else if activeRule.requests[k].action == RULE_ALLOW then ACCEPT else DROP
    {
      hide Describes, Accepted, Stored, FirstMatch;
      assert activeRule.RulesOK();
      var rules, requests := activeRule.rules, activeRule.requests;
      forall i | 0 <= i < |rules| ensures Accepted(requests[i]) && rules[i].body == Stored(requests[i]) {
        assert StoredFor(rules[i].body, requests[i]);
      }
      FirstRequestDecides(requests, activeRule.Bodies(), activeRule.action, p, k);
    }
  }

  /** Narrows a request that has passed validation and copies its lists. */
  method MakeBody(req: Request) returns (body: RuleBody)
    requires |req.addrs| <= MAX_ADDR_PER_RULE && 0 < |req.ports| <= MAX_PORT_PER_RULE && req.addrs != []
    ensures body == Narrowed(req)
  {
    var addressListLen: uint8 := |req.addrs| % 0x100;
    if addressListLen == 1 && req.addrs[0] == RuleAddr(0, 0) {
      addressListLen := 0;
    }
    var portListLen: uint8 := |req.ports| % 0x100;
    if portListLen == 1 && DontCare(req.ports[0]) {
      portListLen := 0;
    }
    var addrs: seq<RuleAddr>, ports: seq<RulePort> := [], [];
    for i := 0 to addressListLen
      invariant addrs == req.addrs[..i]
    {
      addrs := addrs + [req.addrs[i]];
    }
    for i := 0 to portListLen
      invariant ports == req.ports[..i]
    {
      ports := ports + [req.ports[i]];
    }
    return RuleBody(req.action % 0x1_0000, req.direction % 0x1_0000, addrs, req.proto % 0x1_0000, ports);
  }

  /** Checks the addresses of a request and clears the bits outside their masks. */
  method ValidateAddrs(list: seq<RuleAddr>) returns (ok: bool, addrs: seq<RuleAddr>)
    ensures ok <==> AddrsOK(list)
    ensures ok ==> addrs == Masked(list)
  {
    hide Net;
    addrs := list;
    for i := 0 to |list|
      invariant |addrs| == |list| && forall j :: 0 <= j < |list| ==>
        addrs[j] == if j < i then MaskedAddr(list[j]) else list[j]
      invariant forall j :: 0 <= j < i && list[j].mask == 0 ==> |list| == 1
    {
      if addrs[i].addr != Net(addrs[i].addr, addrs[i].mask) {
        addrs := addrs[i := RuleAddr(Net(addrs[i].addr, addrs[i].mask), addrs[i].mask)];
      }
      NoMask(list[i].addr);
      if addrs[i].addr == 0 && addrs[i].mask == 0 && (i > 0 || |list| > 1) {
        return false, addrs;
      }
    }
    return true, addrs;
  }

  /** Checks the ports of a request. */
  method ValidatePorts(proto: uint32, ports: seq<RulePort>) returns (ok: bool)
    requires ports != []
    ensures ok <==> PortsOK(proto, ports)
  {
    if proto == IPPROTO_TCP || proto == IPPROTO_UDP {
      for i := 0 to |ports|
        invariant forall j :: 0 <= j < i ==> PortOK(ports[j]) && (DontCare(ports[j]) ==> |ports| == 1)
      {
        var r := ports[i];
        if r.localLow > 0xFFFF && r.localLow != ANY_PORT { return false; }
        if r.localHigh > 0xFFFF && r.localHigh != ANY_PORT { return false; }
        if r.remoteLow > 0xFFFF && r.remoteLow != ANY_PORT { return false; }
        if r.remoteHigh > 0xFFFF && r.remoteHigh != ANY_PORT { return false; }
        if (r.localLow == ANY_PORT) != (r.localHigh == ANY_PORT) ||
           (r.remoteLow == ANY_PORT) != (r.remoteHigh == ANY_PORT) {
          return false;
        }
        if r.localHigh < r.localLow || r.remoteHigh < r.remoteLow { return false; }
        if DontCare(r) && (i > 0 || |ports| > 1) { return false; }
      }
      return true;
    }
    var r := ports[0];
    return |ports| == 1 && Unused(r.localLow) && Unused(r.localHigh) && Unused(r.remoteLow) && Unused(r.remoteHigh);
  }

  /** Validates a request as a user passes it: accepted are exactly the well-formed ones. */
  method ValidateRule(req: Request) returns (ok: bool, addrs: seq<RuleAddr>)
    ensures ok <==> Accepted(req)
    ensures ok ==> addrs == Masked(req.addrs)
  {
    hide Masked, AddrsOK, PortsOK;
    addrs := req.addrs;
    if |req.addrs| <= 0 || |req.addrs| > MAX_ADDR_PER_RULE { return false, addrs; }
    if |req.ports| <= 0 || |req.ports| > MAX_PORT_PER_RULE { return false, addrs; }
    if req.action != RULE_BLOCK && req.action != RULE_ALLOW { return false, addrs; }
    if req.direction != DIRECTION_IN && req.direction != DIRECTION_OUT && req.direction != DIRECTION_BOTH {
      return false, addrs;
    }
    ok, addrs := ValidateAddrs(req.addrs);
    if !ok { return; }
    if req.proto > 0xFF && req.proto != ANY_PROTO { return false, addrs; }
    ok := ValidatePorts(req.proto, req.ports);
  }

  /** Compares a stored rule with a packet. */
  method RuleMatches(r: RuleBody, p: Packet) returns (matched: bool)
    ensures matched <==> Matches(r, p)
  {
    hide Net;
    if (r.direction == DIRECTION_IN && p.transmit) || (r.direction == DIRECTION_OUT && !p.transmit) {
      return false;
    }
    var matchedAddress := r.addrs == [];
    for i := 0 to |r.addrs|
      invariant r.addrs != [] ==> !matchedAddress
      invariant forall j :: 0 <= j < i ==> Net(p.RemoteAddr(), r.addrs[j].mask) != r.addrs[j].addr
    {
      if Net(p.RemoteAddr(), r.addrs[i].mask) == r.addrs[i].addr {
        matchedAddress := true;
        break;
      }
    }
    if !matchedAddress {
      return false;
    }
    if r.proto != ANY_PROTO && r.proto != p.proto {
      return false;
    }
    if r.proto == IPPROTO_TCP || r.proto == IPPROTO_UDP {
      var matchedPort := r.ports == [];
      for i := 0 to |r.ports|
        invariant r.ports != [] ==> !matchedPort && forall j :: 0 <= j < i ==> !PortMatches(r.ports[j], p)
      {
        if PortMatches(r.ports[i], p) {
          matchedPort := true;
          break;
        }
      }
      return matchedPort;
    }
    return true;
  }

  // ----- A change request that changes the verdict -----

  /** An echo request from 192.168.0.2 to 8.8.4.4. */
  const PING: Packet := Packet(true, true, 64, 0x0200_A8C0, 0x0404_0808, 1, 0, 0)

  /** A set that blocks by default is made the active one, and is then asked to change nothing: a packet
      that was dropped before is accepted after. */
  method NoChangeOpens() returns (f: Filter, before: Verdict, after: Verdict)
    ensures f.Valid() && f.activeRule != null && f.activeRule.requests == []
    ensures before == DROP && after == ACCEPT
  {
    hide Filter.Valid, FirstMatch, Loopback;
    f := new Filter();
    var r := f.CreateRuleSet(1, RULE_BLOCK, true);
    ghost var k;
    r, k := f.ChangeRuleSet(1, true, false, RULE_NO_CHANGE as uint32, 0);
    before := f.VNetFilterHookFn(PING);
    PingDecided(f);
    r, k := f.ChangeRuleSet(1, false, false, RULE_NO_CHANGE as uint32, 0);
    after := f.VNetFilterHookFn(PING);
    PingDecided(f);
  }

  /** Without rules the default decides on PING. */
  lemma PingDecided(f: Filter)
    requires f.Valid() && f.activeRule != null && f.activeRule.requests == []
    ensures Decide(f.activeRule.Bodies(), f.activeRule.action, PING) == ByDefault(f.activeRule.action)
  {
    assert f.activeRule.RulesOK();
    assert 0x0404_0808 as bv32 & 0xFF == 8;
  }
}
