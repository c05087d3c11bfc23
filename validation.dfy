/** The part of Zod the schemas under src/schemas/ rely on: an object schema
    is a list of field rules, `parse` reports every field whose rule fails
    (as a ZodError, answered 400 by the error handler) and otherwise keeps
    the declared fields only. Request bodies are JSON values; the library
    checks `z.email()`, `z.string().datetime()` and `z.url()` are parameters. */
module Validation {
  import opened Wrappers

  /** A JSON value as it arrives in a request body. `JOther` stands for
      arrays and nested objects, which no rule accepts. */
  datatype Json = JString(str: string) | JNumber(num: real) | JBool(flag: bool) | JNull | JOther

  type Object = map<string, Json>

  /** Zod's own format checks, left abstract. */
  datatype LibraryChecks = LibraryChecks(email: string -> bool, datetime: string -> bool,
                                         url: string -> bool)

  /** One field of an object schema: its name, whether `.optional()` allows
      it to be absent, and the check its value must pass when present. */
  datatype Rule = Rule(field: string, optional: bool, check: Json -> bool)

  predicate Passes(rule: Rule, body: Object) {
    if rule.field in body then rule.check(body[rule.field]) else rule.optional
  }

  /** The fields whose rules fail, in the schema's order. */
  function Issues(rules: seq<Rule>, body: Object): (issues: seq<string>)
    ensures issues == [] <==> forall i :: 0 <= i < |rules| ==> Passes(rules[i], body)
    ensures |issues| <= |rules|
    ensures forall j :: 0 <= j < |issues| ==>
              exists i :: 0 <= i < |rules| && rules[i].field == issues[j] && !Passes(rules[i], body)
  {
    if rules == [] then []
    else
      var rest := Issues(rules[1..], body);
      assert forall i :: 1 <= i < |rules| ==> rules[i] == rules[1..][i - 1];
      if Passes(rules[0], body) then rest else [rules[0].field] + rest
  }

  /** `.partial()`: the same checks, every field optional. */
  function Partial(rules: seq<Rule>): (r: seq<Rule>)
    ensures |r| == |rules|
    ensures forall i :: 0 <= i < |rules| ==>
              r[i].optional && r[i].field == rules[i].field && r[i].check == rules[i].check
  {
    seq(|rules|, i requires 0 <= i < |rules| => Rule(rules[i].field, true, rules[i].check))
  }

  /** Whatever a schema accepts, its partial version accepts; and the
      partial version accepts the empty object. */
  lemma PartialAcceptsMore(rules: seq<Rule>, body: Object)
    ensures Issues(rules, body) == [] ==> Issues(Partial(rules), body) == []
    ensures Issues(Partial(rules), map[]) == []
  {
    var p := Partial(rules);
    if Issues(rules, body) == [] {
      forall i | 0 <= i < |p| ensures Passes(p[i], body) {
        assert Passes(rules[i], body);
      }
    }
    forall i | 0 <= i < |p| ensures Passes(p[i], map[]) {
    }
  }

  // ---------------------------------------------------------------------
  // The value checks the schemas use

  /** `z.string().min(lo).max(hi)`; lengths count characters. */
  predicate StringIn(j: Json, lo: nat, hi: nat) {
    j.JString? && lo <= |j.str| <= hi
  }

  /** `z.string().min(lo)` */
  predicate StringAtLeast(j: Json, lo: nat) {
    j.JString? && lo <= |j.str|
  }

  /** `z.string().max(hi)` */
  predicate StringAtMost(j: Json, hi: nat) {
    j.JString? && |j.str| <= hi
  }

  /** A number with no fractional part. */
  predicate Integral(x: real) {
    x == x.Floor as real
  }

  /** `Number.MAX_SAFE_INTEGER`, 2^53 - 1. */
  const MaxSafeInteger: int := 0x1F_FFFF_FFFF_FFFF

  /** `.int()`: a whole number no further from zero than
      `Number.MAX_SAFE_INTEGER`. */
  predicate SafeInteger(x: real) {
    Integral(x) && -MaxSafeInteger as real <= x <= MaxSafeInteger as real
  }

  // ---------------------------------------------------------------------
  // Optional fields of a parsed object

  /** The body holds `field` exactly when `v` is present, and then holds `v`. */
  predicate Carries(body: Object, field: string, v: Option<Json>) {
    && (field in body <==> v.Some?)
    && (v.Some? ==> body[field] == v.value)
  }

  /** `m` with `field` set to `v` when `v` is present. */
  function Put(field: string, v: Option<Json>, m: Object): Object {
    if v.Some? then m[field := v.value] else m
  }

  /** The string a body holds under `field`, if present. */
  function StringOf(body: Object, field: string): (o: Option<string>)
    requires field in body ==> body[field].JString?
    ensures Carries(body, field, StringJson(o))
  {
    if field in body then Some(body[field].str) else None
  }

  function BoolOf(body: Object, field: string): (o: Option<bool>)
    requires field in body ==> body[field].JBool?
    ensures Carries(body, field, BoolJson(o))
  {
    if field in body then Some(body[field].flag) else None
  }

  function NumberOf(body: Object, field: string): (o: Option<real>)
    requires field in body ==> body[field].JNumber?
    ensures Carries(body, field, NumberJson(o))
  {
    if field in body then Some(body[field].num) else None
  }

  function StringJson(o: Option<string>): Option<Json> {
    if o.Some? then Some(JString(o.value)) else None
  }

  function BoolJson(o: Option<bool>): Option<Json> {
    if o.Some? then Some(JBool(o.value)) else None
  }

  function NumberJson(o: Option<real>): Option<Json> {
    if o.Some? then Some(JNumber(o.value)) else None
  }
}
