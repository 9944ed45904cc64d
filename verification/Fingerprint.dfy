/** `canonical_json_bytes` and the fingerprint of a payment command. */
module Fingerprint {
  import opened Basics
  import opened Json
  import JsonText
  import Utf8

  function CanonicalBytes(v: Json): seq<Utf8.Byte> {
    Utf8.Encode(JsonText.Dumps(v))
  }

  /** Canonical bytes agree exactly for values that are the same JSON, whatever their key order. */
  lemma CanonicalBytesAgree(a: Json, b: Json)
    requires Dictionaries(a) && Dictionaries(b)
    ensures CanonicalBytes(a) == CanonicalBytes(b) <==> SameJson(a, b)
  {
    Utf8.DecodeEncode(JsonText.Dumps(a));
    Utf8.DecodeEncode(JsonText.Dumps(b));
    JsonText.DumpsInjective(a, b);
  }

  /**
   What the bytes are: UTF-8 of a text of the same JSON, with every object's keys ascending by code points
   and no white space outside strings.
   */
  lemma CanonicalForm(v: Json)
    requires Dictionaries(v)
    ensures exists w :: SameJson(v, w) && KeysAscend(w) && Utf8.Decode(CanonicalBytes(v)) == Some(JsonText.Print(w))
                        && forall c :: c in JsonText.Outside(JsonText.Print(w), false) ==> c !in " \t\n\r"
  {
    Utf8.DecodeEncode(JsonText.Dumps(v));
    JsonText.DumpsSorts(v);
    JsonText.DumpsIsCompact(v);
  }

  datatype Command = Command(apiVersion: string, verb: string, route: string, params: Members, body: Json)

  predicate ValidCommand(c: Command) {
    Dictionaries(Object(c.params)) && Dictionaries(c.body)
  }

  /** The summary dictionary in the order `build_fingerprint` fills it; `upper` is `str.upper`. */
  function Summary(c: Command, upper: string -> string): Json {
    Object(Member("api_version", String(c.apiVersion),
           Member("method", String(upper(c.verb)),
           Member("route_template", String(c.route),
           Member("path_params", Object(c.params),
           Member("body", c.body, NoMembers))))))
  }

  function FingerprintBytes(c: Command, upper: string -> string): seq<Utf8.Byte> {
    CanonicalBytes(Summary(c, upper))
  }

  const SUMMARY_KEYS := {"api_version", "method", "route_template", "path_params", "body"}

  lemma KeysDistinct()
    ensures "api_version" != "method" && "api_version" != "route_template" && "api_version" != "path_params"
    ensures "api_version" != "body" && "method" != "route_template" && "method" != "path_params"
    ensures "method" != "body" && "route_template" != "path_params" && "route_template" != "body"
    ensures "path_params" != "body"
  {
    assert |"api_version"| == 11 && |"method"| == 6 && |"route_template"| == 14 && |"path_params"| == 11;
    assert |"body"| == 4 && "api_version"[0] == 'a' && "path_params"[0] == 'p';
  }

  lemma SummaryGet(c: Command, upper: string -> string, k: string)
    ensures Get(Summary(c, upper).members, k) ==
            (if k == "body" then Some(c.body)
             else if k == "path_params" then Some(Object(c.params))
             else if k == "route_template" then Some(String(c.route))
             else if k == "method" then Some(String(upper(c.verb)))
             else if k == "api_version" then Some(String(c.apiVersion))
             else None)
  {
    var body := Member("body", c.body, NoMembers);
    var params := Member("path_params", Object(c.params), body);
    var route := Member("route_template", String(c.route), params);
    var verb := Member("method", String(upper(c.verb)), route);
    KeysDistinct();
    assert Get(body, k) == if k == "body" then Some(c.body) else None;
    assert Get(route, k) == if k == "route_template" then Some(String(c.route)) else Get(params, k);
    assert Get(verb, k) == if k == "method" then Some(String(upper(c.verb))) else Get(route, k);
    assert Summary(c, upper) == Object(Member("api_version", String(c.apiVersion), verb));
  }

  lemma SummaryIsDictionary(c: Command, upper: string -> string)
    requires ValidCommand(c)
    ensures Dictionaries(Summary(c, upper))
  {
    var body := Member("body", c.body, NoMembers);
    var params := Member("path_params", Object(c.params), body);
    var route := Member("route_template", String(c.route), params);
    var verb := Member("method", String(upper(c.verb)), route);
    KeysDistinct();
    AddMember("body", c.body, NoMembers);
    AddMember("path_params", Object(c.params), body);
    AddMember("route_template", String(c.route), params);
    AddMember("method", String(upper(c.verb)), route);
    AddMember("api_version", String(c.apiVersion), verb);
    assert Summary(c, upper) == Object(Member("api_version", String(c.apiVersion), verb));
  }

  /** Fingerprint bytes agree exactly when version, upper-cased method, route, parameters and body agree. */
  lemma FingerprintsAgree(c: Command, d: Command, upper: string -> string)
    requires ValidCommand(c) && ValidCommand(d)
    ensures FingerprintBytes(c, upper) == FingerprintBytes(d, upper) <==>
            && c.apiVersion == d.apiVersion && upper(c.verb) == upper(d.verb) && c.route == d.route
            && SameMembers(c.params, d.params) && SameJson(c.body, d.body)
  {
    SummaryIsDictionary(c, upper);
    SummaryIsDictionary(d, upper);
    CanonicalBytesAgree(Summary(c, upper), Summary(d, upper));
    SameSummaries(c, d, upper);
  }

  lemma SameSummaries(c: Command, d: Command, upper: string -> string)
    ensures SameJson(Summary(c, upper), Summary(d, upper)) <==>
            && c.apiVersion == d.apiVersion && upper(c.verb) == upper(d.verb) && c.route == d.route
            && SameMembers(c.params, d.params) && SameJson(c.body, d.body)
  {
    KeysDistinct();
    var m, n := Summary(c, upper).members, Summary(d, upper).members;
    forall k ensures HasKey(m, k) <==> k in SUMMARY_KEYS
      ensures HasKey(n, k) <==> k in SUMMARY_KEYS
    {
      SummaryGet(c, upper, k);
      SummaryGet(d, upper, k);
    }
    forall k | k in SUMMARY_KEYS ensures Get(m, k).Some? && Get(n, k).Some? {
      assert HasKey(m, k) && HasKey(n, k);
    }
    assert SameMembers(m, n) <==> forall k :: k in SUMMARY_KEYS ==> SameJson(Get(m, k).value, Get(n, k).value);
    SummaryFields(c, upper);
    SummaryFields(d, upper);
  }

  lemma SummaryFields(c: Command, upper: string -> string)
    ensures var m := Summary(c, upper).members;
            && Get(m, "body") == Some(c.body) && Get(m, "path_params") == Some(Object(c.params))
            && Get(m, "route_template") == Some(String(c.route))
            && Get(m, "method") == Some(String(upper(c.verb)))
            && Get(m, "api_version") == Some(String(c.apiVersion))
  {
    KeysDistinct();
    SummaryGet(c, upper, "body");
    SummaryGet(c, upper, "path_params");
    SummaryGet(c, upper, "route_template");
    SummaryGet(c, upper, "method");
    SummaryGet(c, upper, "api_version");
  }

  lemma SummaryInOrder(c: Command, upper: string -> string)
    ensures Canon(Summary(c, upper))
         == Object(Member("api_version", String(c.apiVersion),
                   Member("body", Canon(c.body),
                   Member("method", String(upper(c.verb)),
                   Member("path_params", Canon(Object(c.params)),
                   Member("route_template", String(c.route), NoMembers))))))
  {
    FirstLetters();
    InOrder("api_version", String(c.apiVersion), "method", String(upper(c.verb)), "route_template", String(c.route),
            "path_params", Object(c.params), "body", c.body);
    hide CanonMembers;
  }

  lemma {:induction false} InOrder(a: string, av: Json, m: string, mv: Json, r: string, rv: Json, p: string, pv: Json,
                                   b: string, bv: Json)
    requires Before(a, b) && Before(m, p) && !Before(p, b) && !Before(r, b) && !Before(m, b) && !Before(r, p)
    ensures CanonMembers(Member(a, av, Member(m, mv, Member(r, rv, Member(p, pv, Member(b, bv, NoMembers))))))
         == Member(a, Canon(av), Member(b, Canon(bv), Member(m, Canon(mv), Member(p, Canon(pv), Member(r, Canon(rv),
            NoMembers)))))
  {
    var body := Member(b, bv, NoMembers);
    var params := Member(p, pv, body);
    var route := Member(r, rv, params);
    var last := Member(r, Canon(rv), NoMembers);
    assert CanonMembers(body) == Member(b, Canon(bv), NoMembers);
    InsertLater(p, Canon(pv), CanonMembers(body));
    assert CanonMembers(params) == Insert(p, Canon(pv), CanonMembers(body));
    assert CanonMembers(params) == Member(b, Canon(bv), Member(p, Canon(pv), NoMembers));
    InsertLater(r, Canon(rv), CanonMembers(params));
    InsertLater(r, Canon(rv), Member(p, Canon(pv), NoMembers));
    assert CanonMembers(route) == Member(b, Canon(bv), Member(p, Canon(pv), last));
    InsertLater(m, Canon(mv), CanonMembers(route));
    assert CanonMembers(Member(m, mv, route)) == Insert(m, Canon(mv), CanonMembers(route));
  }

  lemma FirstLetters()
    ensures Before("api_version", "body") && Before("method", "path_params") && !Before("route_template", "path_params")
    ensures !Before("path_params", "body") && !Before("route_template", "body") && !Before("method", "body")
  {
    assert "api_version"[0] == 'a' && "body"[0] == 'b' && "method"[0] == 'm' && "path_params"[0] == 'p';
    assert "route_template"[0] == 'r';
    FirstOrders("api_version", "body");
    FirstOrders("method", "body");
    FirstOrders("method", "path_params");
    FirstOrders("path_params", "body");
    FirstOrders("route_template", "body");
    FirstOrders("route_template", "path_params");
  }

  /** The text whose bytes are digested: the five fields under their names, in that order. */
  lemma FingerprintText(c: Command, upper: string -> string)
    ensures Utf8.Decode(FingerprintBytes(c, upper))
         == Some("{\"api_version\":" + JsonText.Dumps(String(c.apiVersion))
                 + ",\"body\":" + JsonText.Dumps(c.body)
                 + ",\"method\":" + JsonText.Dumps(String(upper(c.verb)))
                 + ",\"path_params\":" + JsonText.Dumps(Object(c.params))
                 + ",\"route_template\":" + JsonText.Dumps(String(c.route)) + "}")
  {
    Utf8.DecodeEncode(JsonText.Dumps(Summary(c, upper)));
    SummaryInOrder(c, upper);
    PrintsSummary(String(c.apiVersion), Canon(c.body), String(upper(c.verb)), Canon(Object(c.params)), String(c.route));
  }

  lemma {:induction false} PrintsSummary(version: Json, body: Json, verb: Json, params: Json, route: Json)
    ensures JsonText.Print(Object(Member("api_version", version, Member("body", body, Member("method", verb,
                           Member("path_params", params, Member("route_template", route, NoMembers)))))))
         == "{\"api_version\":" + JsonText.Print(version) + ",\"body\":" + JsonText.Print(body)
            + ",\"method\":" + JsonText.Print(verb) + ",\"path_params\":" + JsonText.Print(params)
            + ",\"route_template\":" + JsonText.Print(route) + "}"
  {
    hide JsonText.Plain, JsonText.PrintMembers;
    var fifth := Member("route_template", route, NoMembers);
    var fourth := Member("path_params", params, fifth);
    var third := Member("method", verb, fourth);
    var second := Member("body", body, third);
    var first := Member("api_version", version, second);
    assert JsonText.Print(Object(first)) == "{" + (JsonText.PrintMembers(first) + "}");
    hide JsonText.Print;
    Names();
    LongNames();
    Commas();
    JsonText.PrintsField("\"api_version\":", "api_version", version, second);
    JsonText.PrintsField("\"body\":", "body", body, third);
    JsonText.PrintsField("\"method\":", "method", verb, fourth);
    JsonText.PrintsField("\"path_params\":", "path_params", params, fifth);
    JsonText.PrintsField("\"route_template\":", "route_template", route, NoMembers);
    Joined("{", "\"api_version\":", JsonText.Print(version), ",", "\"body\":", JsonText.Print(body),
           "\"method\":", JsonText.Print(verb), "\"path_params\":", JsonText.Print(params),
           "\"route_template\":", JsonText.Print(route), "}");
  }

  lemma Names()
    ensures "\"api_version\":" == "\"" + "api_version" + "\":" && JsonText.Plain("api_version")
    ensures "\"body\":" == "\"" + "body" + "\":" && JsonText.Plain("body")
    ensures "\"method\":" == "\"" + "method" + "\":" && JsonText.Plain("method")
  {
  }

  lemma LongNames()
    ensures "\"path_params\":" == "\"" + "path_params" + "\":" && JsonText.Plain("path_params")
    ensures "\"route_template\":" == "\"" + "route_template" + "\":" && JsonText.Plain("route_template")
  {
  }

  lemma Commas()
    ensures "{\"api_version\":" == "{" + "\"api_version\":"
    ensures ",\"body\":" == "," + "\"body\":"
    ensures ",\"method\":" == "," + "\"method\":"
    ensures ",\"path_params\":" == "," + "\"path_params\":"
    ensures ",\"route_template\":" == "," + "\"route_template\":"
  {
  }

  lemma Joined(open: string, a: string, av: string, comma: string, b: string, bv: string, c: string, cv: string,
               d: string, dv: string, e: string, ev: string, close: string)
    ensures var fourth := d + dv + (comma + (e + ev + ""));
            open + ((a + av + (comma + (b + bv + (comma + (c + cv + (comma + fourth)))))) + close)
            == (open + a) + av + (comma + b) + bv + (comma + c) + cv + (comma + d) + dv + (comma + e) + ev + close
  {
    var fifth := e + ev + "";
    var fourth := d + dv + (comma + fifth);
    var third := c + cv + (comma + fourth);
    var second := b + bv + (comma + third);
    assert open + (a + av + (comma + second)) == (open + a) + av + (comma + second);
    var so := (open + a) + av;
    JsonText.NextField(so, comma, b, bv, comma + third);
    so := so + (comma + b) + bv;
    JsonText.NextField(so, comma, c, cv, comma + fourth);
    so := so + (comma + c) + cv;
    JsonText.NextField(so, comma, d, dv, comma + fifth);
    so := so + (comma + d) + dv;
    JsonText.NextField(so, comma, e, ev, "");
    so := so + (comma + e) + ev;
    assert so + "" == so;
  }

  /** A key used on a v1 route never matches a v2 command, whatever the rest of the two commands. */
  lemma VersionsNeverShareBytes(c: Command, d: Command, upper: string -> string)
    requires ValidCommand(c) && ValidCommand(d)
    requires c.apiVersion == "v1" && d.apiVersion == "v2"
    ensures FingerprintBytes(c, upper) != FingerprintBytes(d, upper)
  {
    FingerprintsAgree(c, d, upper);
    assert "v1"[1] != "v2"[1];
  }
}
