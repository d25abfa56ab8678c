/**
 * Building the default configuration from a JSON schema, and splitting the
 * `unit` annotation of a schema property into its unit and default unit.
 */
module Config {
  import opened Common

  /** A parsed YAML/JSON value; an object keeps its members in order. */
  datatype Json =
    | JNull
    | JBool(b: bool)
    | JNum(n: real)
    | JStr(s: string)
    | JArr(items: seq<Json>)
    | JObj(members: seq<(string, Json)>)

  /** The keys of an object's members, in order. */
  function KeysOf(ms: seq<(string, Json)>): (ks: seq<string>)
    ensures |ks| == |ms|
    ensures forall i :: 0 <= i < |ms| ==> ks[i] == ms[i].0
  {
    if |ms| == 0 then [] else [ms[0].0] + KeysOf(ms[1..])
  }

  /** `key in mapping`. */
  predicate Has(ms: seq<(string, Json)>, key: string) {
    key in KeysOf(ms)
  }

  /** `mapping[key]`: the value of the first member with that key. */
  function Get(ms: seq<(string, Json)>, key: string): (v: Json)
    requires Has(ms, key)
    ensures exists i :: 0 <= i < |ms| && ms[i] == (key, v)
  {
    if ms[0].0 == key then ms[0].1
    else
      assert KeysOf(ms)[1..] == KeysOf(ms[1..]);
      var v := Get(ms[1..], key);
      assert forall i :: 0 <= i < |ms| - 1 ==> ms[1..][i] == ms[i + 1];
      v
  }

  /** `needle in haystack` for strings: a substring test. */
  predicate IsSubstring(needle: string, haystack: string)
    decreases |haystack|
  {
    |needle| <= |haystack| && (haystack[..|needle|] == needle || IsSubstring(needle, haystack[1..]))
  }

  /**
   * `_populate_defaults`: the schema's `default`, else its `const`; for an
   * object schema, an object with one member per property (in order) holding
   * that property's default; for an array schema, a one-element list holding
   * the default of `items`, or an empty list; otherwise None. A `properties`
   * that is not a mapping has no `items()` (AttributeError). A schema node
   * that is not a mapping is probed with `in` and then indexed: a string or
   * list that mentions one of the keys raises TypeError, any other string or
   * list gives None, and a scalar raises TypeError.
   */
  function Populate(schema: Json): (r: Result<Json, PyError>)
    decreases schema
    ensures schema.JObj? && Has(schema.members, "default") ==> r == Success(Get(schema.members, "default"))
    ensures schema.JObj? && !Has(schema.members, "default") && Has(schema.members, "const") ==>
      r == Success(Get(schema.members, "const"))
    ensures (schema.JObj? && !IsObjectSchema(schema.members) && !IsArraySchema(schema.members)
      && !Has(schema.members, "default") && !Has(schema.members, "const")) ==> r == Success(JNull)
    ensures (r.Success? && schema.JObj? && IsArraySchema(schema.members)
      && !Has(schema.members, "default") && !Has(schema.members, "const")) ==>
      r.value.JArr? && |r.value.items| == (if Has(schema.members, "items") then 1 else 0)
    ensures (schema.JObj? && !Has(schema.members, "default") && !Has(schema.members, "const")
      && IsObjectSchema(schema.members) && !Has(schema.members, "properties")) ==> r == Success(JObj([]))
    ensures (schema.JObj? && !Has(schema.members, "default") && !Has(schema.members, "const")
      && IsObjectSchema(schema.members) && Has(schema.members, "properties")
      && !Get(schema.members, "properties").JObj?) ==> r == Failure(AttributeError)
    ensures schema.JNull? || schema.JBool? || schema.JNum? ==> r == Failure(TypeError)
  {
    match schema
    case JObj(ms) =>
      if Has(ms, "default") then Success(Get(ms, "default"))
      else if Has(ms, "const") then Success(Get(ms, "const"))
      else if IsObjectSchema(ms) then
        if !Has(ms, "properties") then Success(JObj([]))
        else
          (match Get(ms, "properties")
           case JObj(props) =>
             ValueIsSmaller(ms, "properties");
             (match PopulateMembers(props, 0)
              case Failure(e) => Failure(e)
              case Success(defaults) => Success(JObj(defaults)))
           case _ => Failure(AttributeError))
      else if IsArraySchema(ms) then
        if !Has(ms, "items") then Success(JArr([]))
        else
          (match Populate(Get(ms, "items"))
           case Failure(e) => Failure(e)
           case Success(d) => Success(JArr([d])))
      else Success(JNull)
    case JStr(s) =>
      if IsSubstring("default", s) || IsSubstring("const", s) || IsSubstring("type", s) then Failure(TypeError)
      else Success(JNull)
    case JArr(xs) =>
      if JStr("default") in xs || JStr("const") in xs || JStr("type") in xs then Failure(TypeError)
      else Success(JNull)
    case _ => Failure(TypeError)
  }

  /**
   * The loop over `properties.items()`, from the `i`-th property on: each
   * property name with its default, in order; the first property whose
   * default fails decides the error.
   */
  function PopulateMembers(props: seq<(string, Json)>, i: nat): (r: Result<seq<(string, Json)>, PyError>)
    requires i <= |props|
    decreases JObj(props), |props| - i
    ensures r.Success? <==> forall j :: i <= j < |props| ==> Populate(props[j].1).Success?
    ensures r.Success? ==> KeysOf(r.value) == KeysOf(props[i..])
    ensures r.Success? ==> forall j :: i <= j < |props| ==> Populate(props[j].1) == Success(r.value[j - i].1)
    ensures r.Failure? ==> exists j :: (i <= j < |props| && Populate(props[j].1) == Failure(r.error)
      && forall k :: i <= k < j ==> Populate(props[k].1).Success?)
  {
    if i == |props| then Success([])
    else
      assert props[i].1 < JObj(props);
      match Populate(props[i].1)
      case Failure(e) => Failure(e)
      case Success(d) =>
        match PopulateMembers(props, i + 1)
        case Failure(e) => Failure(e)
        case Success(rest) =>
          assert props[i..] == [props[i]] + props[i + 1..];
          Success([(props[i].0, d)] + rest)
  }

  /** `'type' in schema and schema['type'] == 'object'`. */
  predicate IsObjectSchema(ms: seq<(string, Json)>) {
    Has(ms, "type") && Get(ms, "type") == JStr("object")
  }

  /** `'type' in schema and schema['type'] == 'array'`. */
  predicate IsArraySchema(ms: seq<(string, Json)>) {
    Has(ms, "type") && Get(ms, "type") == JStr("array")
  }

  // ------------------------------------------------------------------------
  // What the defaults look like

  /**
   * A schema is a mapping whose `properties` (when it describes an object)
   * is a mapping of schemas, and whose `items` (when it describes an array)
   * is a schema.
   */
  predicate WellFormed(schema: Json) {
    match schema
    case JObj(ms) =>
      && (IsObjectSchema(ms) && Has(ms, "properties") ==>
          && Get(ms, "properties").JObj?
          && forall i :: 0 <= i < |Get(ms, "properties").members| ==>
               WellFormed(Get(ms, "properties").members[i].1))
      && (IsArraySchema(ms) && Has(ms, "items") ==> WellFormed(Get(ms, "items")))
    case _ => false
  }

  /** Every well-formed schema yields a default. */
  lemma {:induction false} PopulateWellFormed(schema: Json)
    requires WellFormed(schema)
    ensures Populate(schema).Success?
  {
    var ms := schema.members;
    if !Has(ms, "default") && !Has(ms, "const") {
      if IsObjectSchema(ms) && Has(ms, "properties") {
        var props := Get(ms, "properties").members;
        forall i | 0 <= i < |props|
          ensures Populate(props[i].1).Success?
        {
          PropertyIsSmaller(ms, props, i);
          PopulateWellFormed(props[i].1);
        }
      } else if IsArraySchema(ms) && Has(ms, "items") {
        ValueIsSmaller(ms, "items");
        PopulateWellFormed(Get(ms, "items"));
      }
    }
  }

  /** A member value is smaller than the object holding it. */
  lemma ValueIsSmaller(ms: seq<(string, Json)>, key: string)
    requires Has(ms, key)
    ensures Get(ms, key) < JObj(ms)
  {
    var i :| 0 <= i < |ms| && ms[i] == (key, Get(ms, key));
    assert ms[i].1 == Get(ms, key);
  }

  /** A property schema is smaller than the schema that lists it. */
  lemma PropertyIsSmaller(ms: seq<(string, Json)>, props: seq<(string, Json)>, i: nat)
    requires Has(ms, "properties") && Get(ms, "properties") == JObj(props) && i < |props|
    ensures props[i].1 < JObj(ms)
  {
    ValueIsSmaller(ms, "properties");
  }

  /**
   * The default of an object schema has exactly the schema's property
   * names, in the schema's order, each holding that property's default.
   */
  lemma ObjectDefaultFollowsProperties(ms: seq<(string, Json)>, props: seq<(string, Json)>)
    requires !Has(ms, "default") && !Has(ms, "const") && IsObjectSchema(ms)
    requires Has(ms, "properties") && Get(ms, "properties") == JObj(props)
    requires Populate(JObj(ms)).Success?
    ensures var d := Populate(JObj(ms)).value;
      && d.JObj?
      && KeysOf(d.members) == KeysOf(props)
      && forall i :: 0 <= i < |props| ==> Populate(props[i].1) == Success(d.members[i].1)
  {
    ObjectDefaultIsMembers(ms, props);
    assert props[0..] == props;
  }

  /** An object schema's default is the object built by the loop over its properties. */
  lemma ObjectDefaultIsMembers(ms: seq<(string, Json)>, props: seq<(string, Json)>)
    requires !Has(ms, "default") && !Has(ms, "const") && IsObjectSchema(ms)
    requires Has(ms, "properties") && Get(ms, "properties") == JObj(props)
    requires Populate(JObj(ms)).Success?
    ensures PopulateMembers(props, 0).Success?
    ensures Populate(JObj(ms)) == Success(JObj(PopulateMembers(props, 0).value))
  {
  }

  /** An array schema's default lists the default of its items once. */
  lemma ArrayDefaultHoldsItemDefault(ms: seq<(string, Json)>)
    requires !Has(ms, "default") && !Has(ms, "const") && !IsObjectSchema(ms) && IsArraySchema(ms)
    requires Has(ms, "items") && Populate(Get(ms, "items")).Success?
    ensures Populate(JObj(ms)) == Success(JArr([Populate(Get(ms, "items")).value]))
  {
  }

  // ------------------------------------------------------------------------
  // The unit annotation: `unit` or `unit(default)`

  /** A regular-expression word character (ASCII letters, digits and underscore). */
  predicate IsWordChar(c: char) {
    ('a' <= c <= 'z') || ('A' <= c <= 'Z') || ('0' <= c <= '9') || c == '_'
  }

  /** Every character of `s` is a word character. */
  predicate IsWord(s: string) {
    forall i :: 0 <= i < |s| ==> IsWordChar(s[i])
  }

  /** The length of the longest prefix of `s` made of word characters. */
  function WordLength(s: string): (n: nat)
    ensures n <= |s| && IsWord(s[..n])
    ensures n < |s| ==> !IsWordChar(s[n])
  {
    if |s| == 0 || !IsWordChar(s[0]) then 0
    else
      var n := WordLength(s[1..]);
      assert s[..n + 1] == [s[0]] + s[1..][..n];
      n + 1
  }

  /**
   * `RE_SPLIT_UNIT.match(s)` and its two groups, with an absent default
   * read as "": the longest word at the start of `s`, then, when it is
   * directly followed by `(word)`, that word. None when `s` does not start
   * with a word character (the caller's assertion then fails).
   */
  function SplitUnit(s: string): (r: Option<(string, string)>)
    ensures r.None? <==> |s| == 0 || !IsWordChar(s[0])
    ensures r.Some? ==> var u := r.value.0;
      && 0 < |u| <= |s| && u == s[..|u|] && IsWord(u)
      && (|u| < |s| ==> !IsWordChar(s[|u|]))
    ensures r.Some? ==> IsWord(r.value.1)
  {
    var n := WordLength(s);
    if n == 0 then None
    else
      var rest := s[n..];
      var m := if |rest| > 0 && rest[0] == '(' then WordLength(rest[1..]) else 0;
      if m > 0 && 1 + m < |rest| && rest[1 + m] == ')' then Some((s[..n], rest[1..][..m]))
      else Some((s[..n], ""))
  }

  /** A word followed by a parenthesised word splits into the two. */
  lemma SplitUnitWithDefault(u: string, d: string)
    requires 0 < |u| && IsWord(u) && 0 < |d| && IsWord(d)
    ensures SplitUnit(u + "(" + d + ")") == Some((u, d))
  {
    var tail := "(" + d + ")";
    var s := u + tail;
    assert u + "(" + d + ")" == s;
    WordLengthOfWord(u, tail);
    assert s[|u|..] == tail && s[..|u|] == u;
    assert tail[1..] == d + ")";
    WordLengthOfWord(d, ")");
    assert (d + ")")[..|d|] == d;
    assert tail[1 + |d|] == ')';
  }

  /** A word alone splits into itself and an empty default. */
  lemma SplitUnitAlone(u: string)
    requires 0 < |u| && IsWord(u)
    ensures SplitUnit(u) == Some((u, ""))
  {
    WordLengthOfWord(u, "");
    assert u + "" == u;
    assert u[..|u|] == u;
  }

  /** A default unit, when set, is the parenthesised word right after the unit. */
  lemma SplitUnitDefaultFollows(s: string)
    requires SplitUnit(s).Some?
    ensures var u, d := SplitUnit(s).value.0, SplitUnit(s).value.1;
      d != "" ==> |u| + |d| + 2 <= |s| && s[|u|..|u| + |d| + 2] == "(" + d + ")"
  {
    var n := WordLength(s);
    var rest := s[n..];
    var d := SplitUnit(s).value.1;
    if d != "" {
      var m := WordLength(rest[1..]);
      assert d == rest[1..][..m] && rest[1 + m] == ')';
      assert s[n..n + m + 2] == "(" + d + ")";
    }
  }

  /** A parenthesised word right after the unit is always taken as the default unit. */
  lemma SplitUnitTakesDefault(s: string, w: string)
    requires SplitUnit(s).Some?
    requires 0 < |w| && IsWord(w)
    requires var n := |SplitUnit(s).value.0|; n + |w| + 2 <= |s| && s[n..n + |w| + 2] == "(" + w + ")"
    ensures SplitUnit(s).value.1 == w
  {
    var n := WordLength(s);
    var rest := s[n..];
    assert |SplitUnit(s).value.0| == n;
    var p := s[n..n + |w| + 2];
    assert p == "(" + w + ")";
    var tail := s[n + |w| + 1..];
    assert rest[0] == p[0] == '(' && tail[0] == p[|w| + 1] == ')';
    forall i | 0 <= i < |w|
      ensures rest[1..][i] == w[i]
    {
      assert rest[1..][i] == p[i + 1];
    }
    assert rest[1..] == rest[1..][..|w|] + tail;
    assert rest[1..] == w + tail;
    WordLengthOfWord(w, tail);
    assert (w + tail)[..|w|] == w;
  }

  /** The word prefix of a word followed by a non-word character is the word. */
  lemma {:induction false} WordLengthOfWord(w: string, tail: string)
    requires IsWord(w) && (|tail| == 0 || !IsWordChar(tail[0]))
    ensures WordLength(w + tail) == |w|
  {
    if |w| > 0 {
      assert (w + tail)[1..] == w[1..] + tail;
      WordLengthOfWord(w[1..], tail);
    } else {
      assert w + tail == tail;
    }
  }
}
