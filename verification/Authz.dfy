/** Who may read what: the policy model's matcher, and the proxy's own scan of the
    policies that stands in for it. */
module Authz {
  import opened Wrappers

  /** A policy row: subject, domain, object, action. */
  type Row = seq<string>

  /** User and role pairs. */
  type Roles = set<(string, string)>

  /** keyMatch2, as an unknown relation of a request's field and a policy's. */
  type KeyMatch = (string, string) -> bool

  datatype Request = Request(subject: string, domain: string, resource: string, action: string)

  // ----- the matcher of the policy model --------------------------------

  /** The longest role chain that the role manager follows. */
  const ROLE_DEPTH := 10

  predicate HasLink(roles: Roles, user: string, role: string, depth: nat)
    decreases depth
  {
    user == role
      || (depth > 0 && exists link :: link in roles && link.0 == user && HasLink(roles, link.1, role, depth - 1))
  }

  predicate Matches(roles: Roles, depth: nat, km: KeyMatch, req: Request, row: Row)
    requires |row| >= 4
  {
    && HasLink(roles, req.subject, row[0], depth)
    && (row[1] == "*" || km(req.domain, row[1]))
    && (row[2] == "*" || km(req.resource, row[2]))
    && row[3] == req.action
  }

  /** Some policy allows the request. */
  predicate Enforce(roles: Roles, depth: nat, km: KeyMatch, rows: seq<Row>, req: Request) {
    exists i :: 0 <= i < |rows| && |rows[i]| >= 4 && Matches(roles, depth, km, req, rows[i])
  }

  /** The subject or one of its groups is allowed. */
  predicate Authorized(roles: Roles, depth: nat, km: KeyMatch, rows: seq<Row>, subject: string, groups: seq<string>,
                       domain: string, resource: string, action: string) {
    exists s :: s in groups + [subject] && Enforce(roles, depth, km, rows, Request(s, domain, resource, action))
  }

  method Authorize(roles: Roles, km: KeyMatch, rows: seq<Row>, subject: string, groups: seq<string>,
                   domain: string, cluster: string, namespace: string, action: string) returns (ok: bool)
    ensures ok == Authorized(roles, ROLE_DEPTH, km, rows, subject, groups, domain, Join(cluster, namespace), action)
  {
    var resource := Join(cluster, namespace);
    assert subject in groups + [subject];
    if Enforce(roles, ROLE_DEPTH, km, rows, Request(subject, domain, resource, action)) {
      return true;
    }
    for i := 0 to |groups|
      invariant forall j :: 0 <= j < i ==>
        !Enforce(roles, ROLE_DEPTH, km, rows, Request(groups[j], domain, resource, action))
    {
      if Enforce(roles, ROLE_DEPTH, km, rows, Request(groups[i], domain, resource, action)) {
        assert groups[i] in groups + [subject];
        return true;
      }
    }
    return false;
  }

  // ----- what the matcher allows ----------------------------------------

  /** Each name in the chain has the next one as a role. */
  predicate IsChain(roles: Roles, chain: seq<string>) {
    |chain| < 2 || ((chain[0], chain[1]) in roles && IsChain(roles, chain[1..]))
  }

  ghost predicate Leads(roles: Roles, user: string, role: string, links: nat) {
    exists chain :: |chain| == links + 1 && chain[0] == user && chain[links] == role && IsChain(roles, chain)
  }

  lemma LeadsNowhere(roles: Roles, user: string)
    ensures Leads(roles, user, user, 0)
  {
    assert |[user]| == 1 && [user][0] == user && IsChain(roles, [user]);
  }

  lemma LeadsFurther(roles: Roles, user: string, middle: string, role: string, links: nat)
    requires (user, middle) in roles && Leads(roles, middle, role, links)
    ensures Leads(roles, user, role, links + 1)
  {
    var chain :| |chain| == links + 1 && chain[0] == middle && chain[links] == role && IsChain(roles, chain);
    var longer := [user] + chain;
    assert longer[1..] == chain && longer[1] == middle;
    assert |longer| == links + 2 && longer[0] == user && longer[links + 1] == role && IsChain(roles, longer);
  }

  lemma LeadsBack(roles: Roles, user: string, role: string, links: nat) returns (middle: string)
    requires links > 0 && Leads(roles, user, role, links)
    ensures (user, middle) in roles && Leads(roles, middle, role, links - 1)
  {
    var chain :| |chain| == links + 1 && chain[0] == user && chain[links] == role && IsChain(roles, chain);
    middle := chain[1];
    assert IsChain(roles, chain[1..]) && |chain[1..]| == links;
    assert chain[1..][0] == middle && chain[1..][links - 1] == role;
  }

  /** A role is reached exactly through a chain of at most so many links. */
  lemma {:induction false} HasLinkIff(roles: Roles, user: string, role: string, depth: nat)
    ensures HasLink(roles, user, role, depth) <==>
      exists links: nat :: links <= depth && Leads(roles, user, role, links)
    decreases depth
  {
    hide Leads;
    if HasLink(roles, user, role, depth) {
      if user == role {
        LeadsNowhere(roles, user);
        assert Leads(roles, user, role, 0);
      } else {
        var link :| link in roles && link.0 == user && HasLink(roles, link.1, role, depth - 1);
        HasLinkIff(roles, link.1, role, depth - 1);
        var links: nat :| links <= depth - 1 && Leads(roles, link.1, role, links);
        LeadsFurther(roles, user, link.1, role, links);
        assert Leads(roles, user, role, links + 1);
      }
    }
    forall links: nat | links <= depth && Leads(roles, user, role, links) ensures HasLink(roles, user, role, depth) {
      if links == 0 {
        LeadsSelf(roles, user, role);
      } else {
        var middle := LeadsBack(roles, user, role, links);
        HasLinkIff(roles, middle, role, depth - 1);
        var link := (user, middle);
        assert link in roles && link.0 == user && HasLink(roles, link.1, role, depth - 1);
      }
    }
  }

  lemma LeadsSelf(roles: Roles, user: string, role: string)
    requires Leads(roles, user, role, 0)
    ensures user == role
  {
  }

  /** The subject or one of its groups leads to the role in at most ten links. */
  ghost predicate Reaches(roles: Roles, subject: string, groups: seq<string>, role: string) {
    exists s, links: nat :: (s == subject || s in groups) && links <= 10 && Leads(roles, s, role, links)
  }

  lemma LinkedIff(roles: Roles, subject: string, groups: seq<string>, role: string)
    ensures Reaches(roles, subject, groups, role) <==>
      exists s :: s in groups + [subject] && HasLink(roles, s, role, ROLE_DEPTH)
  {
    hide Leads, HasLink;
    if Reaches(roles, subject, groups, role) {
      var s, links: nat :| (s == subject || s in groups) && links <= 10 && Leads(roles, s, role, links);
      HasLinkIff(roles, s, role, 10);
      assert s in groups + [subject] && HasLink(roles, s, role, ROLE_DEPTH);
    }
    forall s | s in groups + [subject] && HasLink(roles, s, role, ROLE_DEPTH)
      ensures Reaches(roles, subject, groups, role) {
      HasLinkIff(roles, s, role, 10);
      var links: nat :| links <= 10 && Leads(roles, s, role, links);
      assert s == subject || s in groups;
    }
  }

  /** One policy, with any role, domain, resource pattern and action, allows a request
      exactly if its role is reached by the subject or a group, the actions are the same,
      and domain and resource each match the policy's or meet a lone star. */
  lemma OnePolicyIff(roles: Roles, km: KeyMatch, subject: string, groups: seq<string>, domain: string, resource: string,
                     action: string, role: string, where: string, what: string, act: string)
    ensures Authorized(roles, ROLE_DEPTH, km, [[role, where, what, act]], subject, groups, domain, resource,
                       action) <==>
      && Reaches(roles, subject, groups, role) && action == act
      && (where == "*" || km(domain, where)) && (what == "*" || km(resource, what))
  {
    hide Reaches, HasLink;
    var rows := [[role, where, what, act]];
    LinkedIff(roles, subject, groups, role);
    assert |rows| == 1 && rows[0] == [role, where, what, act];
    forall s ensures Enforce(roles, ROLE_DEPTH, km, rows, Request(s, domain, resource, action)) <==>
      Matches(roles, ROLE_DEPTH, km, Request(s, domain, resource, action), rows[0])
    {
    }
  }

  /** Policies add up: a request is allowed exactly if one of them alone allows it.
      Rows of fewer than four fields and an empty policy allow nothing. */
  lemma PoliciesAddUp(roles: Roles, km: KeyMatch, rows: seq<Row>, subject: string, groups: seq<string>,
                      domain: string, resource: string, action: string)
    ensures Authorized(roles, ROLE_DEPTH, km, rows, subject, groups, domain, resource, action) <==>
      exists i :: 0 <= i < |rows| && |rows[i]| >= 4 &&
        Authorized(roles, ROLE_DEPTH, km, [rows[i][..4]], subject, groups, domain, resource, action)
  {
    forall s, i | 0 <= i < |rows| && |rows[i]| >= 4
      ensures Enforce(roles, ROLE_DEPTH, km, [rows[i][..4]], Request(s, domain, resource, action)) <==>
        Matches(roles, ROLE_DEPTH, km, Request(s, domain, resource, action), rows[i])
    {
      assert [rows[i][..4]][0] == rows[i][..4];
    }
    if Authorized(roles, ROLE_DEPTH, km, rows, subject, groups, domain, resource, action) {
      var s :| s in groups + [subject] && Enforce(roles, ROLE_DEPTH, km, rows, Request(s, domain, resource, action));
      var i :| 0 <= i < |rows| && |rows[i]| >= 4
        && Matches(roles, ROLE_DEPTH, km, Request(s, domain, resource, action), rows[i]);
      assert Enforce(roles, ROLE_DEPTH, km, [rows[i][..4]], Request(s, domain, resource, action));
    }
    forall i | 0 <= i < |rows| && |rows[i]| >= 4
        && Authorized(roles, ROLE_DEPTH, km, [rows[i][..4]], subject, groups, domain, resource, action)
      ensures Authorized(roles, ROLE_DEPTH, km, rows, subject, groups, domain, resource, action)
    {
      var s :| s in groups + [subject]
        && Enforce(roles, ROLE_DEPTH, km, [rows[i][..4]], Request(s, domain, resource, action));
      assert Matches(roles, ROLE_DEPTH, km, Request(s, domain, resource, action), rows[i]);
      assert Enforce(roles, ROLE_DEPTH, km, rows, Request(s, domain, resource, action));
    }
  }

  // ----- resources ------------------------------------------------------

  function Join(cluster: string, namespace: string): string { cluster + "/" + namespace }

  /** Splits at the first slash. */
  function Split(s: string): Option<(string, string)> {
    if s == "" then None
    else if s[0] == '/' then Some(("", s[1..]))
    else match Split(s[1..])
         case None => None
         case Some(pair) => Some(([s[0]] + pair.0, pair.1))
  }

  /** Splitting finds exactly the pair that joins to the string with no slash in its cluster. */
  lemma {:induction false} SplitIff(s: string, cluster: string, namespace: string)
    ensures Split(s) == Some((cluster, namespace)) <==> s == Join(cluster, namespace) && '/' !in cluster
  {
    if s != "" && s[0] != '/' {
      if cluster == "" {
        assert Join(cluster, namespace)[0] == '/';
      } else {
        SplitIff(s[1..], cluster[1..], namespace);
        assert Join(cluster, namespace)[0] == cluster[0];
        assert Join(cluster, namespace)[1..] == Join(cluster[1..], namespace);
        assert cluster == [cluster[0]] + cluster[1..];
        assert s == [s[0]] + s[1..];
      }
    } else if s != "" {
      if cluster == "" {
        assert Join(cluster, namespace) == ['/'] + namespace;
        assert s == ['/'] + s[1..];
      } else {
        assert Join(cluster, namespace)[0] == cluster[0];
      }
    }
  }

  lemma {:induction false} SplitSomeIff(s: string)
    ensures Split(s).Some? <==> '/' in s
  {
    if s != "" && s[0] != '/' {
      SplitSomeIff(s[1..]);
      assert s == [s[0]] + s[1..];
    }
  }

  // ----- the scan of the proxy ------------------------------------------

  predicate Applies(roles: Roles, row: Row, subjects: seq<string>, datasource: string, action: string) {
    && |row| >= 4 && row[3] == action && (row[1] == "*" || row[1] == datasource)
    && exists i :: 0 <= i < |subjects| && (row[0] == subjects[i] || (subjects[i], row[0]) in roles)
  }

  /** The objects of all rows that apply. */
  function Granted(roles: Roles, rows: seq<Row>, subjects: seq<string>, datasource: string,
                   action: string): set<string> {
    set i | 0 <= i < |rows| && Applies(roles, rows[i], subjects, datasource, action) :: rows[i][2]
  }

  method ScanPolicies(roles: Roles, rows: seq<Row>, subjects: seq<string>, datasource: string, action: string)
    returns (allowed: set<string>)
    ensures allowed == Granted(roles, rows, subjects, datasource, action)
  {
    allowed := {};
    for k := 0 to |rows|
      invariant allowed == set i | 0 <= i < k && Applies(roles, rows[i], subjects, datasource, action) :: rows[i][2]
    {
      var row := rows[k];
      if |row| < 4 {
        continue;
      }
      if row[3] != action {
        continue;
      }
      if row[1] != "*" && row[1] != datasource {
        continue;
      }
      var subjectMatches := false;
      for i := 0 to |subjects|
        invariant !subjectMatches
        invariant forall j :: 0 <= j < i ==> row[0] != subjects[j] && (subjects[j], row[0]) !in roles
      {
        if row[0] == subjects[i] {
          subjectMatches := true;
          break;
        }
        if (subjects[i], row[0]) in roles {
          subjectMatches := true;
          break;
        }
      }
      if subjectMatches {
        allowed := allowed + {row[2]};
      }
    }
  }

  /** The clusters and namespaces of the objects that have a slash. */
  function Pairs(allowed: set<string>): set<(string, string)> {
    set o | o in allowed && Split(o).Some? :: Split(o).value
  }

  /** Goes through the allowed objects in any order. */
  method ListPairs(allowed: set<string>) returns (pairs: seq<(string, string)>)
    ensures forall p :: p in pairs <==> p in Pairs(allowed)
    ensures forall i, j :: 0 <= i < j < |pairs| ==> pairs[i] != pairs[j]
  {
    pairs := [];
    var rest := allowed;
    while rest != {}
      invariant rest <= allowed
      invariant forall p :: p in pairs <==> p in Pairs(allowed - rest)
      invariant forall i, j :: 0 <= i < j < |pairs| ==> pairs[i] != pairs[j]
      decreases rest
    {
      var o :| o in rest;
      assert allowed - (rest - {o}) == (allowed - rest) + {o};
      PairsAdd(allowed - rest, o);
      if Split(o).Some? {
        SplitIff(o, Split(o).value.0, Split(o).value.1);
        NotYetSplit(allowed - rest, o);
        pairs := pairs + [Split(o).value];
      }
      rest := rest - {o};
    }
    assert allowed - rest == allowed;
  }

  lemma PairsAdd(done: set<string>, o: string)
    ensures Pairs(done + {o}) == Pairs(done) + if Split(o).Some? then {Split(o).value} else {}
  {
  }

  lemma NotYetSplit(done: set<string>, o: string)
    requires o !in done && Split(o).Some?
    ensures Split(o).value !in Pairs(done)
  {
    if Split(o).value in Pairs(done) {
      var o' :| o' in done && Split(o') == Split(o);
      SplitIff(o, Split(o).value.0, Split(o).value.1);
      SplitIff(o', Split(o).value.0, Split(o).value.1);
    }
  }

  predicate PairAllowed(roles: Roles, rows: seq<Row>, subject: string, groups: seq<string>, datasource: string,
                        action: string, cluster: string, namespace: string) {
    (cluster, namespace) in Pairs(Granted(roles, rows, groups + [subject], datasource, action))
  }

  // ----- the scan against the matcher -----------------------------------

  /** Names match themselves only. */
  const SAME: KeyMatch := (x, y) => x == y

  lemma DirectLink(roles: Roles, user: string, role: string)
    ensures HasLink(roles, user, role, 1) <==> user == role || (user, role) in roles
  {
    if (user, role) in roles {
      var link := (user, role);
      assert link in roles && link.0 == user && HasLink(roles, link.1, role, 0);
    }
  }

  /** Some row that spells out the resource allows it, with roles followed so far. */
  predicate Spelled(roles: Roles, depth: nat, rows: seq<Row>, req: Request) {
    exists i :: 0 <= i < |rows| && |rows[i]| >= 4 && rows[i][2] == req.resource
      && Matches(roles, depth, SAME, req, rows[i])
  }

  /** For all policies whatever: the scan is the matcher with roles followed for one
      step only and with every pattern but a lone star for the domain taken literally. */
  lemma ScanIsLiteralMatcher(roles: Roles, rows: seq<Row>, subject: string, groups: seq<string>, datasource: string,
                             action: string, cluster: string, namespace: string)
    requires '/' !in cluster
    ensures PairAllowed(roles, rows, subject, groups, datasource, action, cluster, namespace) <==>
      exists s :: s in groups + [subject]
        && Spelled(roles, 1, rows, Request(s, datasource, Join(cluster, namespace), action))
  {
    var subjects, resource := groups + [subject], Join(cluster, namespace);
    SplitIff(resource, cluster, namespace);
    if PairAllowed(roles, rows, subject, groups, datasource, action, cluster, namespace) {
      var o :| o in Granted(roles, rows, subjects, datasource, action) && Split(o) == Some((cluster, namespace));
      SplitIff(o, cluster, namespace);
      var i :| 0 <= i < |rows| && Applies(roles, rows[i], subjects, datasource, action) && rows[i][2] == o;
      var k :| 0 <= k < |subjects| && (rows[i][0] == subjects[k] || (subjects[k], rows[i][0]) in roles);
      DirectLink(roles, subjects[k], rows[i][0]);
      assert Matches(roles, 1, SAME, Request(subjects[k], datasource, resource, action), rows[i]);
      assert Spelled(roles, 1, rows, Request(subjects[k], datasource, resource, action));
    }
    forall s | s in subjects && Spelled(roles, 1, rows, Request(s, datasource, resource, action))
      ensures PairAllowed(roles, rows, subject, groups, datasource, action, cluster, namespace)
    {
      var req := Request(s, datasource, resource, action);
      var i :| 0 <= i < |rows| && |rows[i]| >= 4 && rows[i][2] == resource && Matches(roles, 1, SAME, req, rows[i]);
      DirectLink(roles, s, rows[i][0]);
      var k :| 0 <= k < |subjects| && subjects[k] == s;
      assert Applies(roles, rows[i], subjects, datasource, action);
      assert resource in Granted(roles, rows, subjects, datasource, action);
    }
  }

  lemma {:induction false} LinksGrow(roles: Roles, user: string, role: string, depth: nat, more: nat)
    requires HasLink(roles, user, role, depth) && depth <= more
    ensures HasLink(roles, user, role, more)
    decreases depth
  {
    if user != role {
      var link :| link in roles && link.0 == user && HasLink(roles, link.1, role, depth - 1);
      LinksGrow(roles, link.1, role, depth - 1, more - 1);
    }
  }

  /** keyMatch2 accepts the domain and the resource that a row spells out. */
  predicate Reflexive(km: KeyMatch, rows: seq<Row>) {
    forall i :: 0 <= i < |rows| && |rows[i]| >= 4 ==>
      (rows[i][1] == "*" || km(rows[i][1], rows[i][1])) && (rows[i][2] == "*" || km(rows[i][2], rows[i][2]))
  }

  /** Whatever the scan allows, the policy model allows, if keyMatch2 accepts literals. */
  lemma ScanIsSound(roles: Roles, km: KeyMatch, rows: seq<Row>, subject: string, groups: seq<string>,
                    datasource: string, action: string, cluster: string, namespace: string)
    requires Reflexive(km, rows) && '/' !in cluster
    requires PairAllowed(roles, rows, subject, groups, datasource, action, cluster, namespace)
    ensures Authorized(roles, ROLE_DEPTH, km, rows, subject, groups, datasource, Join(cluster, namespace), action)
  {
    ScanIsLiteralMatcher(roles, rows, subject, groups, datasource, action, cluster, namespace);
    var s :| s in groups + [subject]
      && Spelled(roles, 1, rows, Request(s, datasource, Join(cluster, namespace), action));
    var req := Request(s, datasource, Join(cluster, namespace), action);
    var i :| 0 <= i < |rows| && |rows[i]| >= 4 && rows[i][2] == req.resource && Matches(roles, 1, SAME, req, rows[i]);
    LinksGrow(roles, s, rows[i][0], 1, ROLE_DEPTH);
    assert Matches(roles, ROLE_DEPTH, km, req, rows[i]);
    assert Enforce(roles, ROLE_DEPTH, km, rows, req);
  }

  // ----- when the two agree ---------------------------------------------

  /** Whoever reaches a role in two steps has it directly. */
  predicate Transitive(roles: Roles) {
    forall r1, r2 :: r1 in roles && r2 in roles && r1.1 == r2.0 ==> r1.0 == r2.1 || (r1.0, r2.1) in roles
  }

  lemma {:induction false} ChainsCollapse(roles: Roles, user: string, role: string, depth: nat)
    requires Transitive(roles) && HasLink(roles, user, role, depth)
    ensures user == role || (user, role) in roles
    decreases depth
  {
    if user != role {
      var link :| link in roles && link.0 == user && HasLink(roles, link.1, role, depth - 1);
      ChainsCollapse(roles, link.1, role, depth - 1);
      if link.1 != role {
        assert link in roles && (link.1, role) in roles;
      }
    }
  }

  /** No row has a pattern: domains are literal or a lone star, resources literal. */
  ghost predicate PatternFree(km: KeyMatch, rows: seq<Row>) {
    forall i :: 0 <= i < |rows| && |rows[i]| >= 4 ==>
      && (rows[i][1] == "*" || forall x :: km(x, rows[i][1]) <==> x == rows[i][1])
      && rows[i][2] != "*" && (forall x :: km(x, rows[i][2]) <==> x == rows[i][2])
  }

  /** The pair is listed exactly when the policy model allows it, whatever is asked. */
  ghost predicate Agree(roles: Roles, km: KeyMatch, rows: seq<Row>) {
    forall subject, groups, datasource, action, cluster, namespace :: '/' !in cluster ==>
      (PairAllowed(roles, rows, subject, groups, datasource, action, cluster, namespace) <==>
       Authorized(roles, ROLE_DEPTH, km, rows, subject, groups, datasource, Join(cluster, namespace), action))
  }

  lemma AllowedIsSpelled(roles: Roles, km: KeyMatch, rows: seq<Row>, req: Request)
    requires Transitive(roles) && PatternFree(km, rows) && Enforce(roles, ROLE_DEPTH, km, rows, req)
    ensures Spelled(roles, 1, rows, req)
  {
    var i :| 0 <= i < |rows| && |rows[i]| >= 4 && Matches(roles, ROLE_DEPTH, km, req, rows[i]);
    ChainsCollapse(roles, req.subject, rows[i][0], ROLE_DEPTH);
    DirectLink(roles, req.subject, rows[i][0]);
    assert Matches(roles, 1, SAME, req, rows[i]);
  }

  lemma AgreeWhenTransitive(roles: Roles, km: KeyMatch, rows: seq<Row>)
    requires Transitive(roles) && PatternFree(km, rows)
    ensures Agree(roles, km, rows)
  {
    forall subject, groups, datasource, action, cluster, namespace | '/' !in cluster
      ensures PairAllowed(roles, rows, subject, groups, datasource, action, cluster, namespace) <==>
        Authorized(roles, ROLE_DEPTH, km, rows, subject, groups, datasource, Join(cluster, namespace), action)
    {
      var resource := Join(cluster, namespace);
      if PairAllowed(roles, rows, subject, groups, datasource, action, cluster, namespace) {
        ScanIsSound(roles, km, rows, subject, groups, datasource, action, cluster, namespace);
      }
      if Authorized(roles, ROLE_DEPTH, km, rows, subject, groups, datasource, resource, action) {
        var s :| s in groups + [subject]
          && Enforce(roles, ROLE_DEPTH, km, rows, Request(s, datasource, resource, action));
        AllowedIsSpelled(roles, km, rows, Request(s, datasource, resource, action));
        ScanIsLiteralMatcher(roles, rows, subject, groups, datasource, action, cluster, namespace);
      }
    }
  }

  /** A chain of two roles without the shortcut: the model allows what the scan refuses. */
  lemma ChainOfTwoIsRefused(roles: Roles, user: string, middle: string, role: string, groups: seq<string>,
                            datasource: string, cluster: string, namespace: string, action: string)
    requires (user, middle) in roles && (middle, role) in roles && user != role && (user, role) !in roles
    requires '/' !in cluster && groups == []
    ensures var rows := [[role, "*", Join(cluster, namespace), action]];
      && Authorized(roles, ROLE_DEPTH, SAME, rows, user, groups, datasource, Join(cluster, namespace), action)
      && !PairAllowed(roles, rows, user, groups, datasource, action, cluster, namespace)
  {
    var rows := [[role, "*", Join(cluster, namespace), action]];
    var req := Request(user, datasource, Join(cluster, namespace), action);
    DirectLink(roles, middle, role);
    var link := (user, middle);
    assert link in roles && link.0 == user && HasLink(roles, link.1, role, 1);
    LinksGrow(roles, user, role, 2, ROLE_DEPTH);
    assert Matches(roles, ROLE_DEPTH, SAME, req, rows[0]);
    assert Enforce(roles, ROLE_DEPTH, SAME, rows, req);
    assert user in groups + [user];
    ScanIsLiteralMatcher(roles, rows, user, groups, datasource, action, cluster, namespace);
    DirectLink(roles, user, role);
    assert forall s :: s in groups + [user] ==> s == user;
  }

  lemma ShortcutIsNeeded(roles: Roles, user: string, middle: string, role: string)
    requires (user, middle) in roles && (middle, role) in roles && user != role && (user, role) !in roles
    ensures exists km, rows :: PatternFree(km, rows) && !Agree(roles, km, rows)
  {
    var rows := [[role, "*", Join("c", "n"), "read"]];
    ChainOfTwoIsRefused(roles, user, middle, role, [], "d", "c", "n", "read");
    assert Join("c", "n")[0] == 'c' && rows[0][2] == Join("c", "n");
    hide Authorized, PairAllowed, Join;
    assert PatternFree(SAME, rows);
    assert !Agree(roles, SAME, rows);
  }

  /** For pattern-free policies the scan and the policy model agree on everything,
      whatever the policies are, exactly when the roles are transitive. */
  lemma AgreementIff(roles: Roles)
    ensures (forall km, rows :: PatternFree(km, rows) ==> Agree(roles, km, rows)) <==> Transitive(roles)
  {
    if Transitive(roles) {
      forall km, rows | PatternFree(km, rows) ensures Agree(roles, km, rows) {
        AgreeWhenTransitive(roles, km, rows);
      }
    } else {
      var r1, r2 :| r1 in roles && r2 in roles && r1.1 == r2.0 && r1.0 != r2.1 && (r1.0, r2.1) !in roles;
      ShortcutIsNeeded(roles, r1.0, r1.1, r2.1);
    }
  }
}
