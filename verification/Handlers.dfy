/** The proxy's request pipeline: authenticate, authorise, inject the namespace label. */
module Handlers {
  import opened Wrappers
  import opened Authz

  /** A decoded claim of a token. */
  datatype Claim = Text(text: string) | Texts(texts: seq<string>) | List(items: seq<Claim>) | Other

  type Claims = map<string, Claim>

  type Headers = map<string, string>

  /** What the handlers hand on: the subject under the key for e-mail, its groups,
      the datasource, and the clusters and namespaces that it may read. */
  datatype Context = Context(email: string, groups: seq<string>, datasource: string,
                             allowed: Option<seq<(string, string)>>)

  datatype Response = Denied(code: int) | Upstream(injected: string)

  const UNAUTHORIZED := 401
  const FORBIDDEN := 403
  const INTERNAL_ERROR := 500

  // ----- reading claims -------------------------------------------------

  function TextClaim(claims: Claims, key: string): string {
    if key in claims && claims[key].Text? then claims[key].text else ""
  }

  /** The texts of a list, in order, without anything else that is in it. */
  function TextsOf(items: seq<Claim>): seq<string> {
    if items == [] then []
    else TextsOf(items[..|items| - 1]) + if items[|items| - 1].Text? then [items[|items| - 1].text] else []
  }

  function StringSlice(raw: Option<Claim>): seq<string> {
    match raw
    case Some(List(items)) => TextsOf(items)
    case Some(Texts(texts)) => texts
    case _ => []
  }

  method ExtractStringSlice(raw: Option<Claim>) returns (result: seq<string>)
    ensures result == StringSlice(raw)
  {
    result := [];
    if raw.Some? && raw.value.List? {
      var items := raw.value.items;
      for i := 0 to |items|
        invariant result == TextsOf(items[..i])
      {
        assert items[..i + 1][..i] == items[..i];
        if items[i].Text? {
          result := result + [items[i].text];
        }
      }
      assert items[..|items|] == items;
    } else if raw.Some? && raw.value.Texts? {
      result := raw.value.texts;
    }
  }

  /** A group counts exactly when the list holds it as a text. */
  lemma {:induction false} TextsOfIff(items: seq<Claim>, x: string)
    ensures x in TextsOf(items) <==> Text(x) in items
  {
    if items != [] {
      TextsOfIff(items[..|items| - 1], x);
      assert items == items[..|items| - 1] + [items[|items| - 1]];
    }
  }

  /** The texts of a list are those of its parts, one after the other. */
  lemma {:induction false} TextsAddUp(a: seq<Claim>, b: seq<Claim>, text: string)
    ensures TextsOf(a + b) == TextsOf(a) + TextsOf(b)
    ensures TextsOf([Text(text)]) == [text]
    decreases |b|
  {
    if b == [] {
      assert a + b == a;
    } else {
      var n := |b| - 1;
      TextsAddUp(a, b[..n], text);
      assert (a + b)[..|a + b| - 1] == a + b[..n];
    }
    assert [Text(text)][..0] == [];
  }

  /** A claim names a group exactly if it is a list that holds it as a text, whichever
      way the list was decoded. */
  lemma GroupIff(raw: Option<Claim>, group: string)
    ensures group in StringSlice(raw) <==>
      raw.Some? && match raw.value
                   case List(items) => Text(group) in items
                   case Texts(texts) => group in texts
                   case _ => false
    ensures raw.Some? && raw.value.Texts? ==> StringSlice(raw) == raw.value.texts
  {
    if raw.Some? && raw.value.List? {
      TextsOfIff(raw.value.items, group);
    }
  }

  function Claimed(claims: Claims, key: string): Option<Claim> {
    if key in claims then Some(claims[key]) else None
  }

  function Header(headers: Headers, key: string): string {
    if key in headers then headers[key] else ""
  }

  /** The token is verified, is meant for this audience, and names a subject. */
  predicate Identified(verified: Option<Claims>, audience: string) {
    && verified.Some?
    && Claimed(verified.value, "aud") == Some(Text(audience))
    && TextClaim(verified.value, "sub") != ""
  }

  // ----- the handlers ---------------------------------------------------

  class HttpRequest {
    var headers: Headers

    constructor (headers: Headers)
      ensures this.headers == headers
    {
      this.headers := headers;
    }
  }

  method AuthMiddleware(r: HttpRequest, verified: Option<Claims>, audience: string) returns (next: Result<Context, int>)
    modifies r
    ensures next.Ok? <==> Identified(verified, audience)
    ensures next.Ok? ==> r.headers == old(r.headers) - {"Authorization"}
    ensures next.Ok? ==>
      next.value == Context(TextClaim(verified.value, "sub"), StringSlice(Claimed(verified.value, "groups")),
                                               Header(old(r.headers), "X-Datasource-Uid"), None)
    ensures next.Err? ==> next.error == UNAUTHORIZED && r.headers == old(r.headers)
  {
    if verified.None? {
      return Err(UNAUTHORIZED);
    }
    var claims := verified.value;
    if "aud" !in claims || !claims["aud"].Text? || claims["aud"].text != audience {
      return Err(UNAUTHORIZED);
    }
    var sub := TextClaim(claims, "sub");
    if sub == "" {
      return Err(UNAUTHORIZED);
    }
    var groups := ExtractStringSlice(Claimed(claims, "groups"));
    var ctx := Context(sub, groups, "", None);
    var datasource := Header(r.headers, "X-Datasource-Uid");
    if datasource != "" {
      ctx := ctx.(datasource := datasource);
    }
    r.headers := r.headers - {"Authorization"};
    return Ok(ctx);
  }

  method AuthzMiddleware(ctx: Context, policies: Option<seq<Row>>, roles: Roles, action: string)
    returns (next: Result<Context, int>)
    ensures policies.None? ==> next == Err(INTERNAL_ERROR)
    ensures policies.Some? ==>
      var granted := Granted(roles, policies.value, ctx.groups + [ctx.email], ctx.datasource, action);
      && (granted == {} ==> next == Err(FORBIDDEN))
      && (granted != {} ==> next.Ok? && next.value.allowed.Some? && next.value == ctx.(allowed := next.value.allowed)
                            && forall p :: p in next.value.allowed.value <==> p in Pairs(granted))
  {
    if policies.None? {
      return Err(INTERNAL_ERROR);
    }
    var allowed := ScanPolicies(roles, policies.value, ctx.groups + [ctx.email], ctx.datasource, action);
    if allowed == {} {
      return Err(FORBIDDEN);
    }
    var pairs := ListPairs(allowed);
    return Ok(ctx.(allowed := Some(pairs)));
  }

  /** The namespace of the first allowed pair becomes the label. */
  method ExtractLabel(ctx: Context) returns (r: Response)
    ensures r == if ctx.allowed.None? || ctx.allowed.value == [] then Denied(FORBIDDEN)
      else Upstream(ctx.allowed.value[0].1)
  {
    if ctx.allowed.None? || ctx.allowed.value == [] {
      return Denied(FORBIDDEN);
    }
    var pairs, namespaces := ctx.allowed.value, [];
    for i := 0 to |pairs|
      invariant |namespaces| == i && forall j :: 0 <= j < i ==> namespaces[j] == pairs[j].1
    {
      namespaces := namespaces + [pairs[i].1];
    }
    return Upstream(namespaces[0]);
  }

  /** The resources that the request's token may read on its datasource. */
  function Readable(headers: Headers, claims: Claims, roles: Roles, rows: seq<Row>): set<string> {
    Granted(roles, rows, StringSlice(Claimed(claims, "groups")) + [TextClaim(claims, "sub")],
            Header(headers, "X-Datasource-Uid"), "read")
  }

  /** The label is the text after the first slash of a readable resource. */
  ghost predicate MayInject(readable: set<string>, injected: string) {
    exists cluster :: '/' !in cluster && Join(cluster, injected) in readable
  }

  /** The token speaks for the subject, or for a group that its claims list. */
  predicate SpeaksFor(claims: Claims, who: string) {
    || ("sub" in claims && claims["sub"] == Text(who))
    || ("groups" in claims && claims["groups"].List? && Text(who) in claims["groups"].items)
    || ("groups" in claims && claims["groups"].Texts? && who in claims["groups"].texts)
  }

  /** The policy lets the token read its resource on the datasource that the request names. */
  ghost predicate Opens(headers: Headers, claims: Claims, roles: Roles, row: Row) {
    && |row| >= 4 && row[3] == "read"
    && (row[1] == "*" || row[1] == if "X-Datasource-Uid" in headers then headers["X-Datasource-Uid"] else "")
    && exists who :: SpeaksFor(claims, who) && (who == row[0] || (who, row[0]) in roles)
  }

  /** Verified, for this audience, with a subject. */
  predicate Trusted(verified: Option<Claims>, audience: string) {
    && verified.Some?
    && "aud" in verified.value && verified.value["aud"] == Text(audience)
    && "sub" in verified.value && verified.value["sub"].Text? && verified.value["sub"] != Text("")
  }

  /** A policy opens a resource that has the label after its first slash. */
  ghost predicate Grants(headers: Headers, claims: Claims, roles: Roles, rows: seq<Row>, injected: string) {
    exists i, cluster ::
      0 <= i < |rows| && Opens(headers, claims, roles, rows[i]) && '/' !in cluster
        && rows[i][2] == cluster + "/" + injected
  }

  /** Trusted, and let in by a policy that names a namespace. */
  ghost predicate Entitled(headers: Headers, verified: Option<Claims>, audience: string, policies: Option<seq<Row>>,
                           roles: Roles) {
    && Trusted(verified, audience) && policies.Some?
    && exists i :: 0 <= i < |policies.value|
         && Opens(headers, verified.value, roles, policies.value[i]) && '/' in policies.value[i][2]
  }

  lemma OpensIff(headers: Headers, claims: Claims, roles: Roles, row: Row)
    requires "sub" in claims && claims["sub"].Text?
    ensures Opens(headers, claims, roles, row) <==> Reads(headers, claims, roles, row)
  {
    var subjects := StringSlice(Claimed(claims, "groups")) + [TextClaim(claims, "sub")];
    forall who ensures SpeaksFor(claims, who) <==> who in subjects {
      GroupIff(Claimed(claims, "groups"), who);
    }
    if Opens(headers, claims, roles, row) {
      var who :| SpeaksFor(claims, who) && (who == row[0] || (who, row[0]) in roles);
      var i :| 0 <= i < |subjects| && subjects[i] == who;
    }
    if Reads(headers, claims, roles, row) {
      var i :| 0 <= i < |subjects| && (row[0] == subjects[i] || (subjects[i], row[0]) in roles);
      assert SpeaksFor(claims, subjects[i]);
    }
  }

  lemma EntitledIff(headers: Headers, verified: Option<Claims>, audience: string, policies: Option<seq<Row>>,
                    roles: Roles)
    ensures Entitled(headers, verified, audience, policies, roles) <==>
      && Identified(verified, audience) && policies.Some?
      && exists o :: o in Readable(headers, verified.value, roles, policies.value) && '/' in o
  {
    hide Opens, Reads;
    if Identified(verified, audience) && policies.Some? {
      var rows := policies.value;
      forall row ensures Opens(headers, verified.value, roles, row) <==> Reads(headers, verified.value, roles, row) {
        OpensIff(headers, verified.value, roles, row);
      }
      ReadableIff(headers, verified.value, roles, rows);
    }
  }

  lemma TrustedIff(verified: Option<Claims>, audience: string)
    ensures Trusted(verified, audience) <==> Identified(verified, audience)
  {
  }

  lemma GrantsIff(headers: Headers, claims: Claims, roles: Roles, rows: seq<Row>, injected: string)
    requires "sub" in claims && claims["sub"].Text?
    ensures Grants(headers, claims, roles, rows, injected) <==>
      MayInject(Readable(headers, claims, roles, rows), injected)
  {
    hide Opens, Reads;
    forall row ensures Opens(headers, claims, roles, row) <==> Reads(headers, claims, roles, row) {
      OpensIff(headers, claims, roles, row);
    }
    ReadableIff(headers, claims, roles, rows);
    if Grants(headers, claims, roles, rows, injected) {
      var i, cluster :|
        0 <= i < |rows| && Opens(headers, claims, roles, rows[i]) && '/' !in cluster
          && rows[i][2] == cluster + "/" + injected;
      assert Join(cluster, injected) in Readable(headers, claims, roles, rows);
    }
    if MayInject(Readable(headers, claims, roles, rows), injected) {
      var cluster :| '/' !in cluster && Join(cluster, injected) in Readable(headers, claims, roles, rows);
      var i :| 0 <= i < |rows| && Reads(headers, claims, roles, rows[i]) && rows[i][2] == Join(cluster, injected);
      assert Opens(headers, claims, roles, rows[i]) && rows[i][2] == cluster + "/" + injected;
    }
  }

  lemma ReadableIff(headers: Headers, claims: Claims, roles: Roles, rows: seq<Row>)
    ensures forall i :: 0 <= i < |rows| && Reads(headers, claims, roles, rows[i]) ==>
      |rows[i]| >= 4 && rows[i][2] in Readable(headers, claims, roles, rows)
    ensures forall o :: o in Readable(headers, claims, roles, rows) ==>
      exists i :: 0 <= i < |rows| && Reads(headers, claims, roles, rows[i]) && rows[i][2] == o
    ensures forall row :: Reads(headers, claims, roles, row) ==> |row| >= 4
  {
  }

  /** A policy for a group that the claims list is enough, whatever other policies say. */
  lemma GroupIsEnough(headers: Headers, claims: Claims, audience: string, rows: seq<Row>, roles: Roles, group: string,
                      items: seq<Claim>, uid: string, cluster: string, namespace: string)
    requires "aud" in claims && claims["aud"] == Text(audience)
    requires "sub" in claims && claims["sub"].Text? && claims["sub"].text != ""
    requires "groups" in claims && claims["groups"] == List(items) && Text(group) in items
    requires "X-Datasource-Uid" in headers && headers["X-Datasource-Uid"] == uid
    requires [group, uid, Join(cluster, namespace), "read"] in rows
      || [group, "*", Join(cluster, namespace), "read"] in rows
    ensures Entitled(headers, Some(claims), audience, Some(rows), roles)
  {
    var i :| 0 <= i < |rows| &&
      rows[i] in {[group, uid, Join(cluster, namespace), "read"], [group, "*", Join(cluster, namespace), "read"]};
    assert SpeaksFor(claims, group);
    assert Join(cluster, namespace)[|cluster|] == '/';
    assert Opens(headers, claims, roles, rows[i]) && '/' in rows[i][2];
  }

  /** The whole pipeline, for all requests, policies and iteration orders: the request
      goes upstream exactly when its token is good, the policies can be read and some
      readable resource has a slash.  The label is then the text after the first
      slash of such a resource, and the token itself is not passed on. */
  method Serve(r: HttpRequest, verified: Option<Claims>, audience: string, policies: Option<seq<Row>>, roles: Roles)
    returns (response: Response)
    modifies r
    ensures response.Upstream? <==> Entitled(old(r.headers), verified, audience, policies, roles)
    ensures response.Upstream? ==> Grants(old(r.headers), verified.value, roles, policies.value, response.injected)
    ensures response.Upstream? ==> r.headers == old(r.headers) - {"Authorization"}
    ensures response.Denied? ==>
      response.code == if !Trusted(verified, audience) then 401 else if policies.None? then 500 else 403
  {
    TrustedIff(verified, audience);
    EntitledIff(r.headers, verified, audience, policies, roles);
    var identified := AuthMiddleware(r, verified, audience);
    if identified.Err? {
      return Denied(identified.error);
    }
    var authorized := AuthzMiddleware(identified.value, policies, roles, "read");
    if authorized.Err? {
      return Denied(authorized.error);
    }
    ghost var readable := Readable(old(r.headers), verified.value, roles, policies.value);
    PairsNonEmptyIff(readable);
    response := ExtractLabel(authorized.value);
    if response.Upstream? {
      var p := authorized.value.allowed.value[0];
      assert p in Pairs(readable);
      ghost var o :| o in readable && Split(o) == Some(p);
      SplitIff(o, p.0, p.1);
      assert MayInject(readable, response.injected);
      GrantsIff(old(r.headers), verified.value, roles, policies.value, response.injected);
    } else {
      assert Pairs(readable) == {};
    }
  }

  lemma PairsNonEmptyIff(allowed: set<string>)
    ensures Pairs(allowed) != {} <==> exists o :: o in allowed && '/' in o
  {
    forall o | o in allowed && '/' in o ensures Pairs(allowed) != {} {
      SplitSomeIff(o);
      assert Split(o).value in Pairs(allowed);
    }
    if Pairs(allowed) != {} {
      var p :| p in Pairs(allowed);
      var o :| o in allowed && Split(o) == Some(p);
      SplitSomeIff(o);
    }
  }

  /** The policy model allows the token's subject or one of its groups to read the
      namespace that a request is confined to. */
  lemma LabelIsAuthorized(headers: Headers, claims: Claims, roles: Roles, rows: seq<Row>, km: KeyMatch,
                          cluster: string, injected: string)
    requires '/' !in cluster && Join(cluster, injected) in Readable(headers, claims, roles, rows)
    requires Reflexive(km, rows)
    ensures Authorized(roles, ROLE_DEPTH, km, rows, TextClaim(claims, "sub"), StringSlice(Claimed(claims, "groups")),
                       Header(headers, "X-Datasource-Uid"), Join(cluster, injected), "read")
  {
    SplitIff(Join(cluster, injected), cluster, injected);
    ScanIsSound(roles, km, rows, TextClaim(claims, "sub"), StringSlice(Claimed(claims, "groups")),
                Header(headers, "X-Datasource-Uid"), "read", cluster, injected);
  }

  // ----- which labels are names -----------------------------------------

  /** What a namespace can be called: small letters, digits and dashes. */
  predicate IsName(s: string) {
    s != "" && forall i :: 0 <= i < |s| ==> 'a' <= s[i] <= 'z' || '0' <= s[i] <= '9' || s[i] == '-'
  }

  /** The request's token reads the object of the row. */
  predicate Reads(headers: Headers, claims: Claims, roles: Roles, row: Row) {
    Applies(roles, row, StringSlice(Claimed(claims, "groups")) + [TextClaim(claims, "sub")],
            Header(headers, "X-Datasource-Uid"), "read")
  }

  lemma MayInjectIff(readable: set<string>, injected: string)
    ensures MayInject(readable, injected) <==>
      exists o :: o in readable && Split(o).Some? && Split(o).value.1 == injected
  {
    if MayInject(readable, injected) {
      var cluster :| '/' !in cluster && Join(cluster, injected) in readable;
      SplitIff(Join(cluster, injected), cluster, injected);
    }
    forall o | o in readable && Split(o).Some? && Split(o).value.1 == injected ensures MayInject(readable, injected) {
      SplitIff(o, Split(o).value.0, injected);
      assert '/' !in Split(o).value.0 && Join(Split(o).value.0, injected) in readable;
    }
  }

  /** The label of a request is sure to be a name exactly if every row that applies to
      it and has a slash carries a name after the first one. */
  lemma LabelIsNameIff(headers: Headers, claims: Claims, roles: Roles, rows: seq<Row>)
    ensures (forall injected :: MayInject(Readable(headers, claims, roles, rows), injected) ==> IsName(injected))
      <==> forall i :: 0 <= i < |rows| && Reads(headers, claims, roles, rows[i]) && Split(rows[i][2]).Some? ==>
             IsName(Split(rows[i][2]).value.1)
  {
    hide MayInject, IsName, Split;
    var readable := Readable(headers, claims, roles, rows);
    forall injected
      ensures MayInject(readable, injected) <==>
        exists o :: o in readable && Split(o).Some? && Split(o).value.1 == injected
    {
      MayInjectIff(readable, injected);
    }
    forall i | 0 <= i < |rows| && Reads(headers, claims, roles, rows[i]) ensures rows[i][2] in readable {
    }
  }

  /** With nothing but the pattern for everything granted, the request goes upstream
      with the pattern's second half as its namespace. */
  lemma StarIsInjected(headers: Headers, claims: Claims, roles: Roles, rows: seq<Row>, i: nat, injected: string)
    requires i < |rows| && Reads(headers, claims, roles, rows[i])
    requires forall j :: 0 <= j < |rows| && Reads(headers, claims, roles, rows[j]) ==> rows[j][2] == "*/*"
    ensures exists o :: o in Readable(headers, claims, roles, rows) && '/' in o
    ensures MayInject(Readable(headers, claims, roles, rows), injected) <==> injected == "*"
  {
    assert Readable(headers, claims, roles, rows) == {"*/*"};
    assert "*/*" == Join("*", "*") && '/' in "*/*";
    SplitIff("*/*", "*", "*");
    MayInjectIff(Readable(headers, claims, roles, rows), injected);
  }
}
