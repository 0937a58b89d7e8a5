/** `ConfigurationReader`: the experiment grid of an INI file (every
    combination of the teacher's and the learner's candidate parameter
    values, teacher-major) and the small parsers behind it. */
module ConfigurationReader {
  import opened Results
  import opened IdSeq
  import CI = CustomIterator
  import opened ConfigurationCursor

  // ---------------------------------------------------------------------
  // Strings

  /** Python's `str.isspace` on one character. */
  predicate IsSpace(c: char) {
    ('\t' <= c <= '\r') || ('\U{1c}' <= c <= ' ') || c == '\U{85}' || c == '\U{a0}'
    || c == '\U{1680}' || ('\U{2000}' <= c <= '\U{200a}') || c == '\U{2028}' || c == '\U{2029}'
    || c == '\U{202f}' || c == '\U{205f}' || c == '\U{3000}'
  }

  predicate AllSpace(s: string) {
    forall i | 0 <= i < |s| :: IsSpace(s[i])
  }

  /** `lstrip`: the suffix left after the leading whitespace. */
  function StripLeft(s: string): (r: string)
    ensures |r| <= |s| && r == s[|s| - |r|..]
    ensures AllSpace(s[..|s| - |r|]) && (|r| > 0 ==> !IsSpace(r[0]))
  {
    if |s| > 0 && IsSpace(s[0]) then
      var r := StripLeft(s[1..]);
      assert s[1..][|s| - 1 - |r|..] == s[|s| - |r|..];
      assert forall i | 1 <= i < |s| - |r| :: s[i] == s[1..][..|s| - 1 - |r|][i - 1];
      r
    else s
  }

  /** `rstrip`: the prefix left before the trailing whitespace. */
  function StripRight(s: string): (r: string)
    ensures |r| <= |s| && r == s[..|r|]
    ensures AllSpace(s[|r|..]) && (|r| > 0 ==> !IsSpace(r[|r| - 1]))
  {
    if |s| > 0 && IsSpace(s[|s| - 1]) then
      var r := StripRight(s[..|s| - 1]);
      assert forall i | |r| <= i < |s| - 1 :: s[i] == s[..|s| - 1][|r|..][i - |r|];
      r
    else s
  }

  /** `str.strip()`. */
  function Strip(s: string): (r: string)
    ensures |r| <= |s|
    ensures |r| > 0 ==> !IsSpace(r[0]) && !IsSpace(r[|r| - 1])
  {
    StripRight(StripLeft(s))
  }

  /** `s.replace(c, "")`. */
  function Remove(s: string, c: char): (r: string)
    ensures c !in r && |r| <= |s| && forall d | d in r :: d in s
    ensures c !in s ==> r == s
  {
    if |s| == 0 then s
    else if s[0] == c then Remove(s[1..], c)
    else [s[0]] + Remove(s[1..], c)
  }

  /** Every other character survives, as often as it occurred. */
  lemma {:induction false} RemoveKeeps(s: string, c: char)
    ensures forall d | d != c :: multiset(Remove(s, c))[d] == multiset(s)[d]
  {
    if |s| > 0 {
      RemoveKeeps(s[1..], c);
      assert s == [s[0]] + s[1..];
    }
  }

  /** No quote character of either kind. */
  predicate Unquoted(s: string) {
    '\'' !in s && '"' !in s
  }

  /** `_parse_string`: strip the outer whitespace, then delete every single
      and every double quote. */
  function ParseString(s: string): (r: string)
    ensures Unquoted(r) && |r| <= |s|
  {
    Remove(Remove(Strip(s), '\''), '"')
  }

  /** A quoted value, with any whitespace around the quotes, loses exactly
      the whitespace and the quotes. */
  lemma {:induction false} UnquoteQuoted(pre: string, q: char, x: string, post: string)
    requires AllSpace(pre) && AllSpace(post) && (q == '\'' || q == '"') && Unquoted(x)
    ensures ParseString(pre + [q] + x + [q] + post) == x
  {
    var inner := [q] + x + [q];
    assert Strip(pre + [q] + x + [q] + post) == inner by {
      assert pre + [q] + x + [q] + post == pre + inner + post;
      StripSpaces(pre, inner, post);
    }
    RemoveQuotes(q, x);
  }

  lemma {:induction false} RemoveQuotes(q: char, x: string)
    requires (q == '\'' || q == '"') && Unquoted(x)
    ensures Remove(Remove([q] + x + [q], '\''), '"') == x
  {
    RemoveQuote(q, x);
    if q == '"' {
      assert '\'' !in [q] + x + [q];
    }
  }

  /** A word with no quotes and no whitespace at its ends reads as itself. */
  lemma {:induction false} ParseWord(w: string)
    requires |w| > 0 && !IsSpace(w[0]) && !IsSpace(w[|w| - 1]) && Unquoted(w)
    ensures ParseString(w) == w
  {
    StripSpaces([], w, []);
    assert [] + w + [] == w;
  }

  lemma {:induction false} RemoveQuote(q: char, x: string)
    requires q !in x
    ensures Remove([q] + x + [q], q) == x
  {
    assert ([q] + x + [q])[1..] == x + [q];
    RemoveLast(x, q);
  }

  lemma {:induction false} RemoveLast(x: string, q: char)
    requires q !in x
    ensures Remove(x + [q], q) == x
  {
    if |x| > 0 {
      assert (x + [q])[1..] == x[1..] + [q];
      RemoveLast(x[1..], q);
      assert x == [x[0]] + x[1..];
    } else {
      assert x + [q] == [q];
    }
  }

  /** Whitespace around a word that starts and ends with a non-space. */
  lemma {:induction false} StripSpaces(pre: string, mid: string, post: string)
    requires AllSpace(pre) && AllSpace(post) && |mid| > 0 && !IsSpace(mid[0]) && !IsSpace(mid[|mid| - 1])
    ensures Strip(pre + mid + post) == mid
  {
    StripLeftSpaces(pre, mid + post);
    assert pre + mid + post == pre + (mid + post);
    StripRightSpaces(mid, post);
  }

  lemma {:induction false} StripLeftSpaces(pre: string, s: string)
    requires AllSpace(pre) && (|s| > 0 ==> !IsSpace(s[0]))
    ensures StripLeft(pre + s) == s
  {
    if |pre| > 0 {
      assert (pre + s)[1..] == pre[1..] + s;
      StripLeftSpaces(pre[1..], s);
    } else {
      assert pre + s == s;
    }
  }

  lemma {:induction false} StripRightSpaces(s: string, post: string)
    requires AllSpace(post) && (|s| > 0 ==> !IsSpace(s[|s| - 1]))
    ensures StripRight(s + post) == s
  {
    if |post| > 0 {
      assert (s + post)[..|s + post| - 1] == s + post[..|post| - 1];
      StripRightSpaces(s, post[..|post| - 1]);
    } else {
      assert s + post == s;
    }
  }

  /** `str.lower` on ASCII letters. */
  function LowerChar(c: char): (r: char)
    ensures !('A' <= r <= 'Z')
  {
    if 'A' <= c <= 'Z' then (c as int + 32) as char else c
  }

  function Lower(s: string): (r: string)
    ensures |r| == |s| && forall i | 0 <= i < |s| :: r[i] == LowerChar(s[i])
  {
    if |s| == 0 then [] else [LowerChar(s[0])] + Lower(s[1..])
  }

  const TrueWords: seq<string> := ["1", "yes", "on", "true"]
  const FalseWords: seq<string> := ["0", "no", "off", "false"]

  /** `_parse_boolean`: `_parse_string`, lower-case, then one of the four
      words for each truth value; anything else is a ValueError. */
  function ParseBoolean(s: string): (r: Result<bool>)
    ensures r == Ok(true) <==> Lower(ParseString(s)) in TrueWords
    ensures r == Ok(false) <==> Lower(ParseString(s)) !in TrueWords && Lower(ParseString(s)) in FalseWords
    ensures r.Err? ==> r.error.ValueError?
  {
    var t := Lower(ParseString(s));
    if t in TrueWords then Ok(true)
    else if t in FalseWords then Ok(false)
    else Err(ValueError(s))
  }

  /** Python's own spelling of a truth value reads back as that value, with
      or without quotes and surrounding whitespace. */
  lemma {:induction false} BooleanRoundTrip(b: bool, pre: string, q: char, post: string)
    requires AllSpace(pre) && AllSpace(post) && (q == '\'' || q == '"')
    ensures ParseBoolean(if b then "True" else "False") == Ok(b)
    ensures ParseBoolean(pre + [q] + (if b then "True" else "False") + [q] + post) == Ok(b)
  {
    var w := if b then "True" else "False";
    assert ParseBoolean(w) == Ok(b) by {
      ParseWord(w);
      ReadsBack(w, b);
    }
    assert ParseBoolean(pre + [q] + w + [q] + post) == Ok(b) by {
      UnquoteQuoted(pre, q, w, post);
      ReadsBack(pre + [q] + w + [q] + post, b);
    }
  }

  lemma {:induction false} ReadsBack(x: string, b: bool)
    requires ParseString(x) == if b then "True" else "False"
    ensures ParseBoolean(x) == Ok(b)
  {
    BooleanWords();
  }

  lemma {:induction false} BooleanWords()
    ensures Lower("True") == TrueWords[3] && Lower("False") == FalseWords[3] && FalseWords[3] !in TrueWords
  {
    assert LowerChar('T') == 't' && LowerChar('F') == 'f';
  }

  // ---------------------------------------------------------------------
  // Values and sections

  /** A value as `json.loads` returns it. */
  datatype Json = JInt(i: int) | JBool(b: bool) | JFloat(f: real) | JStr(s: string)
                | JList(items: seq<Json>) | JOther

  /** A parameter value after `_parse_value`. */
  datatype Scalar = IntV(i: int) | BoolV(b: bool) | FloatV(f: real) | StrV(s: string)

  /** `isinstance(x, int)`: Python's booleans are integers. */
  predicate IsInt(x: Json) { x.JInt? || x.JBool? }

  function ToScalar(x: Json): (r: Scalar)
    requires IsInt(x) || x.JFloat? || x.JStr?
  {
    match x
    case JInt(i) => IntV(i)
    case JBool(b) => BoolV(b)
    case JFloat(f) => FloatV(f)
    case JStr(s) => StrV(s)
  }

  /** A list `_parse_value` accepts: all integers, all floats or all strings. */
  predicate Homogeneous(items: seq<Json>) {
    (forall i | 0 <= i < |items| :: IsInt(items[i]))
    || (forall i | 0 <= i < |items| :: items[i].JFloat?)
    || (forall i | 0 <= i < |items| :: items[i].JStr?)
  }

  /** `_parse_value`: decode, accept a scalar or a homogeneous list, strip
      the quotes off a lone string, and wrap a scalar in a list. */
  function ParseValue(x: string, decode: string -> Result<Json>): (r: Result<seq<Scalar>>)
    ensures decode(x).Err? ==> r == decode(x).PropagateFailure()
    ensures decode(x).Ok? ==> (r.Ok? <==> (decode(x).value.JList? ==> Homogeneous(decode(x).value.items))
                                          && !decode(x).value.JOther?)
    ensures r.Err? && decode(x).Ok? ==> r.error.AssertionError?
    ensures r.Ok? && !decode(x).value.JList? ==> |r.value| == 1
    ensures r.Ok? && decode(x).value.JList? ==> |r.value| == |decode(x).value.items|
    ensures r.Ok? && decode(x).value.JStr? ==> r.value == [StrV(ParseString(decode(x).value.s))]
  {
    var j :- decode(x);
    match j
    case JInt(_) => Ok([ToScalar(j)])
    case JBool(_) => Ok([ToScalar(j)])
    case JFloat(_) => Ok([ToScalar(j)])
    case JStr(s) => Ok([StrV(ParseString(s))])
    case JList(items) =>
      if Homogeneous(items) then Ok(seq(|items|, i requires 0 <= i < |items| => ToScalar(items[i])))
      else Err(AssertionError("bool1 or bool2 or bool3 or bool4 or bool5 or bool6"))
    case JOther => Err(AssertionError("bool1 or bool2 or bool3 or bool4 or bool5 or bool6"))
  }

  /** A section of the file: its keys, in file order, with their raw text. */
  type Section = seq<(string, string)>

  /** The keys of a list of pairs, in order. */
  function Keys<V>(s: seq<(string, V)>): (r: seq<string>)
    ensures |r| == |s| && forall i | 0 <= i < |s| :: r[i] == s[i].0
  {
    seq(|s|, i requires 0 <= i < |s| => s[i].0)
  }

  /** The raw text of `key`, if the section has it. */
  function Lookup(sec: Section, key: string): (r: Option<string>)
    ensures r.None? <==> key !in Keys(sec)
    ensures r.Some? ==> exists i | 0 <= i < |sec| :: sec[i] == (key, r.value)
  {
    if |sec| == 0 then None
    else if sec[0].0 == key then Some(sec[0].1)
    else
      var r := Lookup(sec[1..], key);
      assert Keys(sec[1..]) == Keys(sec)[1..];
      assert r.Some? ==> exists i | 0 <= i < |sec| :: sec[i] == (key, r.value) by {
        if r.Some? {
          var i :| 0 <= i < |sec[1..]| && sec[1..][i] == (key, r.value);
          assert sec[i + 1] == (key, r.value);
        }
      }
      r
  }

  /** The keyword arguments of a teacher or learner as Python's dictionary
      holds them: each parameter with its list of candidates, in file
      order. */
  type Params = seq<(string, seq<Scalar>)>

  const NoName := "'name' in section"
  const NoPath := "'path' in section"
  const NotSingle := "protocol parameters does not support lists"
  const UnknownDatasetKey := "set(section) <= _DATASET_SUPERSET_SECTION"
  const UnknownProtocolKey := "set(section) <= _PROTOCOL_SUPERSET_SECTION"

  /** The keys other than `skip`, order kept. */
  function Others(keys: seq<string>, skip: string): (r: seq<string>)
    ensures forall k :: k in r <==> k in keys && k != skip
    ensures Distinct(keys) ==> Distinct(r)
  {
    if |keys| == 0 then []
    else
      var rest := Others(keys[1..], skip);
      assert forall k :: k in keys <==> k == keys[0] || k in keys[1..];
      assert Distinct(keys) ==> Distinct(keys[1..]) && keys[0] !in keys[1..];
      if keys[0] == skip then rest else [keys[0]] + rest
  }

  /** Each key of `sec` other than `name` holds its parsed candidates in `g`. */
  predicate Holds(g: Params, sec: Section, decode: string -> Result<Json>) {
    forall i | 0 <= i < |sec| && sec[i].0 != "name" ::
      ParseValue(sec[i].1, decode).Ok? && (sec[i].0, ParseValue(sec[i].1, decode).value) in g
  }

  /** Every value other than `name`'s parses. */
  predicate AllParse(sec: Section, decode: string -> Result<Json>) {
    forall i | 0 <= i < |sec| && sec[i].0 != "name" :: ParseValue(sec[i].1, decode).Ok?
  }

  /** The dictionary comprehension of `_parse_teacher_section`: every key but
      `name`, in order, with its parsed candidates; the first value that
      does not parse stops the reading. */
  function ParseCandidates(sec: Section, decode: string -> Result<Json>): (r: Result<Params>)
    requires Distinct(Keys(sec))
    ensures r.Ok? <==> AllParse(sec, decode)
    ensures r.Ok? ==> Keys(r.value) == Others(Keys(sec), "name") && Distinct(Keys(r.value)) && Holds(r.value, sec, decode)
  {
    if |sec| == 0 then Ok([])
    else
      assert Keys(sec[1..]) == Keys(sec)[1..];
      assert Distinct(Keys(sec)[1..]);
      assert forall i | 1 <= i < |sec| :: sec[i] == sec[1..][i - 1];
      if sec[0].0 == "name" then ParseCandidates(sec[1..], decode)
      else
        var v :- ParseValue(sec[0].1, decode);
        var rest :- ParseCandidates(sec[1..], decode);
        assert Keys([(sec[0].0, v)] + rest) == [sec[0].0] + Keys(rest);
        Ok([(sec[0].0, v)] + rest)
  }

  /** `_parse_teacher_section` (and `_parse_learner_section`, which is the
      same): the stripped `name`, and the candidates of every other key. */
  function ParseNamedSection(sec: Section, decode: string -> Result<Json>): (r: Result<(string, Params)>)
    requires Distinct(Keys(sec))
    ensures "name" !in Keys(sec) ==> r == Err(AssertionError(NoName))
    ensures r.Ok? <==> "name" in Keys(sec) && AllParse(sec, decode)
    ensures r.Ok? ==> Lookup(sec, "name").Some? && r.value.0 == ParseString(Lookup(sec, "name").value)
    ensures r.Ok? ==> Keys(r.value.1) == Others(Keys(sec), "name") && Distinct(Keys(r.value.1)) && Holds(r.value.1, sec, decode)
  {
    var raw := Lookup(sec, "name");
    if raw.None? then Err(AssertionError(NoName))
    else
      var g :- ParseCandidates(sec, decode);
      Ok((ParseString(raw.value), g))
  }

  const DatasetKeys: set<string> := {"path", "path_teste", "scale", "is_numeric", "shuffle_dataset"}
  const ProtocolKeys: set<string> := {"time_limit", "join_sets", "save_best_learner"}

  /** Every value parses to exactly one element. */
  predicate SingleValued(sec: Section, decode: string -> Result<Json>) {
    forall i | 0 <= i < |sec| :: ParseValue(sec[i].1, decode).Ok? && |ParseValue(sec[i].1, decode).value| == 1
  }

  /** Each key of `sec` holds the one element its value parses to. */
  predicate HoldsSingle(m: map<string, Scalar>, sec: Section, decode: string -> Result<Json>) {
    forall i | 0 <= i < |sec| :: sec[i].0 in m && ParseValue(sec[i].1, decode) == Ok([m[sec[i].0]])
  }

  /** The map's keys are exactly the section's. */
  ghost predicate SameKeys(m: map<string, Scalar>, ks: seq<string>) {
    forall k :: k in m <==> k in ks
  }

  /** Every key of the section is one of `allowed`. */
  predicate Within(ks: seq<string>, allowed: set<string>) {
    forall i | 0 <= i < |ks| :: ks[i] in allowed
  }

  /** The loop shared by the dataset and protocol sections: every value
      must parse to a single element, which becomes the argument. */
  function SingleValues(sec: Section, decode: string -> Result<Json>): (r: Result<map<string, Scalar>>)
    requires Distinct(Keys(sec))
    ensures r.Ok? <==> SingleValued(sec, decode)
    ensures r.Ok? ==> SameKeys(r.value, Keys(sec)) && HoldsSingle(r.value, sec, decode)
  {
    if |sec| == 0 then Ok(map[])
    else
      SingleValuedCons(sec, decode);
      var v :- ParseValue(sec[0].1, decode);
      if |v| != 1 then Err(AssertionError(NotSingle))
      else
        assert Keys(sec[1..]) == Keys(sec)[1..];
        assert Distinct(Keys(sec)[1..]);
        var rest :- SingleValues(sec[1..], decode);
        assert v == [v[0]];
        HoldsSingleCons(rest, sec, decode, v[0]);
        Ok(rest[sec[0].0 := v[0]])
  }

  lemma {:induction false} SingleValuedCons(sec: Section, decode: string -> Result<Json>)
    requires |sec| > 0
    ensures SingleValued(sec, decode) <==>
      ParseValue(sec[0].1, decode).Ok? && |ParseValue(sec[0].1, decode).value| == 1 && SingleValued(sec[1..], decode)
  {
    assert forall i | 1 <= i < |sec| :: sec[i] == sec[1..][i - 1];
    if !SingleValued(sec, decode) && ParseValue(sec[0].1, decode).Ok? && |ParseValue(sec[0].1, decode).value| == 1 {
      var i :| 0 <= i < |sec| && !(ParseValue(sec[i].1, decode).Ok? && |ParseValue(sec[i].1, decode).value| == 1);
      assert sec[1..][i - 1] == sec[i];
    }
  }

  lemma {:induction false} HoldsSingleCons(m: map<string, Scalar>, sec: Section, decode: string -> Result<Json>, x: Scalar)
    requires |sec| > 0 && Distinct(Keys(sec)) && ParseValue(sec[0].1, decode) == Ok([x])
    requires SameKeys(m, Keys(sec[1..])) && HoldsSingle(m, sec[1..], decode)
    ensures SameKeys(m[sec[0].0 := x], Keys(sec)) && HoldsSingle(m[sec[0].0 := x], sec, decode)
  {
    assert Keys(sec[1..]) == Keys(sec)[1..];
    assert Keys(sec) == [sec[0].0] + Keys(sec[1..]);
    forall i | 1 <= i < |sec|
      ensures sec[i].0 != sec[0].0 && sec[i] == sec[1..][i - 1]
    {
      assert Keys(sec)[i] != Keys(sec)[0];
    }
  }

  /** `_parse_dataset_section`: `path` must be there, every key must be one
      the loader knows, and every value must be single. */
  function ParseDatasetSection(sec: Section, decode: string -> Result<Json>): (r: Result<map<string, Scalar>>)
    requires Distinct(Keys(sec))
    ensures r.Ok? <==> "path" in Keys(sec) && Within(Keys(sec), DatasetKeys) && SingleValued(sec, decode)
    ensures "path" !in Keys(sec) ==> r == Err(AssertionError(NoPath))
    ensures r.Ok? ==> "path" in r.value && r.value.Keys <= DatasetKeys && HoldsSingle(r.value, sec, decode)
  {
    if "path" !in Keys(sec) then Err(AssertionError(NoPath))
    else if !Within(Keys(sec), DatasetKeys) then Err(AssertionError(UnknownDatasetKey))
    else SingleValues(sec, decode)
  }

  /** `_parse_protocol_section`: only the protocol's own keys, each single. */
  function ParseProtocolSection(sec: Section, decode: string -> Result<Json>): (r: Result<map<string, Scalar>>)
    requires Distinct(Keys(sec))
    ensures r.Ok? <==> Within(Keys(sec), ProtocolKeys) && SingleValued(sec, decode)
    ensures r.Ok? ==> r.value.Keys <= ProtocolKeys && HoldsSingle(r.value, sec, decode)
  {
    if !Within(Keys(sec), ProtocolKeys) then Err(AssertionError(UnknownProtocolKey))
    else SingleValues(sec, decode)
  }

  /** `os.path.basename`: what follows the last `/`. */
  function Basename(p: string): (r: string)
    ensures '/' !in r && |r| <= |p| && r == p[|p| - |r|..]
    ensures |r| < |p| ==> p[|p| - |r| - 1] == '/'
  {
    if |p| == 0 || p[|p| - 1] == '/' then []
    else
      var r := Basename(p[..|p| - 1]);
      assert p[..|p| - 1][|p| - 1 - |r|..] + [p[|p| - 1]] == p[|p| - 1 - |r|..];
      r + [p[|p| - 1]]
  }

  // ---------------------------------------------------------------------
  // The grid of configurations

  /** `_get_v_teacher_limits` / `_get_v_learner_limits`: one less than the
      number of candidates of each parameter, in key order. */
  function Limits(g: Params): (r: seq<int>)
    ensures |r| == |g| && CI.AtLeastMinusOne(r)
    ensures forall i | 0 <= i < |g| :: r[i] == |g[i].1| - 1
  {
    if |g| == 0 then [] else [|g[0].1| - 1] + Limits(g[1..])
  }

  /** The number of combinations: the product of the candidate counts. */
  function Combinations(g: Params): nat {
    if |g| == 0 then 1 else |g[0].1| * Combinations(g[1..])
  }

  /** The counter over `Limits` counts exactly the combinations, and has
      something to count only when every parameter has a candidate. */
  lemma {:induction false} LimitsCount(g: Params)
    ensures CI.Product(Limits(g)) == Combinations(g)
    ensures CI.NonNegative(Limits(g)) <==> forall i | 0 <= i < |g| :: |g[i].1| > 0
  {
    if |g| > 0 {
      LimitsCount(g[1..]);
      assert Limits(g)[1..] == Limits(g[1..]);
    }
  }

  /** Python's `lst[j]`, negative `j` counting from the end. */
  function PyAt<T>(s: seq<T>, j: int): (r: Result<T>)
    ensures r.Ok? <==> -|s| <= j < |s|
    ensures r.Err? ==> r.error == IndexError
    ensures 0 <= j < |s| ==> r == Ok(s[j])
  {
    if 0 <= j < |s| then Ok(s[j])
    else if -|s| <= j < 0 then Ok(s[|s| + j])
    else Err(IndexError)
  }

  /** `v[i]` is a valid Python index into the candidates of parameter `i`. */
  predicate Indexable(g: Params, v: seq<int>)
    requires |v| == |g|
  {
    forall i | 0 <= i < |v| :: -|g[i].1| <= v[i] < |g[i].1|
  }

  /** The loop of `_get_d_teacher`, parameter by parameter: the dictionary
      after the first `|v|` assignments. */
  function Choose(g: Params, v: seq<int>): (r: Result<map<string, Scalar>>)
    requires |v| == |g|
    ensures r.Ok? <==> Indexable(g, v)
    ensures r.Err? ==> r.error == IndexError
    ensures r.Ok? ==> forall k :: k in r.value <==> k in Keys(g)
    ensures r.Ok? && Distinct(Keys(g)) ==> forall i | 0 <= i < |v| :: PyAt(g[i].1, v[i]) == Ok(r.value[g[i].0])
  {
    if |v| == 0 then Ok(map[])
    else
      var n := |v| - 1;
      KeysSplit(g);
      IndexableSplit(g, v);
      var d :- Choose(g[..n], v[..n]);
      var x :- PyAt(g[n].1, v[n]);
      assert Chosen(g[..n], v[..n], d);
      ChooseLast(g, v, d, x);
      Ok(d[g[n].0 := x])
  }

  /** The keys of all parameters are those of all but the last, and the last;
      distinct keys stay distinct without the last, which is not among them. */
  lemma {:induction false} KeysSplit(g: Params)
    requires |g| > 0
    ensures forall k :: k in Keys(g) <==> k in Keys(g[..|g| - 1]) || k == g[|g| - 1].0
    ensures Distinct(Keys(g)) ==> Distinct(Keys(g[..|g| - 1])) && g[|g| - 1].0 !in Keys(g[..|g| - 1])
  {
    var n := |g| - 1;
    assert Keys(g[..n]) == Keys(g)[..n];
    assert Keys(g) == Keys(g)[..n] + [g[n].0];
  }

  /** A vector is a valid index vector exactly when all but its last digit
      are, and the last is too. */
  lemma {:induction false} IndexableSplit(g: Params, v: seq<int>)
    requires |v| == |g| > 0
    ensures Indexable(g, v) <==> Indexable(g[..|g| - 1], v[..|g| - 1]) && -|g[|g| - 1].1| <= v[|g| - 1] < |g[|g| - 1].1|
  {
    var n := |g| - 1;
    assert forall i | 0 <= i < n :: g[..n][i] == g[i] && v[..n][i] == v[i];
  }

  /** `d` maps every parameter to its `v[i]`-th candidate. */
  ghost predicate Chosen(g: Params, v: seq<int>, d: map<string, Scalar>)
    requires |v| == |g|
  {
    && (forall k :: k in d <==> k in Keys(g))
    && (Distinct(Keys(g)) ==> forall i | 0 <= i < |g| :: g[i].0 in d && PyAt(g[i].1, v[i]) == Ok(d[g[i].0]))
  }

  /** Adding the last parameter's candidate to the dictionary of the others
      keeps every earlier value when the keys are distinct. */
  lemma {:induction false} ChooseLast(g: Params, v: seq<int>, d: map<string, Scalar>, x: Scalar)
    requires |v| == |g| > 0
    requires Chosen(g[..|g| - 1], v[..|g| - 1], d) && PyAt(g[|g| - 1].1, v[|g| - 1]) == Ok(x)
    ensures Chosen(g, v, d[g[|g| - 1].0 := x])
  {
    var n := |g| - 1;
    assert forall i | 0 <= i < n :: g[..n][i] == g[i] && v[..n][i] == v[i];
    KeysSplit(g);
    if Distinct(Keys(g)) {
      forall i | 0 <= i < n
        ensures g[i].0 != g[n].0
      {
        assert g[i].0 == Keys(g[..n])[i];
      }
    }
  }

  const WrongLength := "len(v) == len(self._teacher_params)"

  /** `_get_d_teacher` / `_get_d_learner`: each parameter mapped to its
      `v[i]`-th candidate; a vector of the wrong length fails the assertion. */
  function Pick(g: Params, v: seq<int>): (r: Result<map<string, Scalar>>)
    ensures |v| != |g| ==> r == Err(AssertionError(WrongLength))
    ensures |v| == |g| ==> (r.Ok? <==> Indexable(g, v)) && (r.Err? ==> r.error == IndexError)
  {
    if |v| != |g| then Err(AssertionError(WrongLength))
    else Choose(g, v)
  }

  /** A vector the counter hands out is a valid index vector. */
  lemma {:induction false} PickOk(g: Params, v: seq<int>)
    requires CI.InRange(v, Limits(g))
    ensures Pick(g, v).Ok?
  {
    assert Indexable(g, v);
  }

  /** A vector the counter hands out picks, for every parameter, the
      candidate its digit names. */
  lemma {:induction false} PickInRange(g: Params, v: seq<int>)
    requires Distinct(Keys(g)) && CI.InRange(v, Limits(g))
    ensures Pick(g, v).Ok?
    ensures forall k :: k in Pick(g, v).value <==> k in Keys(g)
    ensures forall i | 0 <= i < |g| :: 0 <= v[i] < |g[i].1| && Pick(g, v).value[g[i].0] == g[i].1[v[i]]
  {
    PickOk(g, v);
  }

  /** The parsed file, ready to iterate. */
  datatype Configs = Configs(
    teacherName: string, learnerName: string, teacher: Params, learner: Params, dest: string,
    dataset: map<string, Scalar>, protocol: map<string, Scalar>, datasetName: string)
  {
    /** No parameter is named twice, as in a dictionary. */
    predicate Valid() {
      Distinct(Keys(teacher)) && Distinct(Keys(learner))
    }

    /** Every parameter has at least one candidate. */
    predicate Full() {
      CI.NonNegative(Limits(teacher)) && CI.NonNegative(Limits(learner))
    }
  }

  /** One experiment: the names, one candidate for each parameter, and the
      shared dataset, destination and protocol arguments. */
  datatype TestConfiguration = TestConfiguration(
    teacherName: string, learnerName: string,
    teacherArgs: map<string, Scalar>, learnerArgs: map<string, Scalar>, dest: string,
    dataset: map<string, Scalar>, protocol: map<string, Scalar>, datasetName: string)

  /** `_TestConfigurations.__init__`: the dataset's name is the basename of
      its `path` argument. */
  function NewConfigs(teacherName: string, learnerName: string, teacher: Params, learner: Params, dest: string,
                      dataset: map<string, Scalar>, protocol: map<string, Scalar>): (r: Result<Configs>)
    ensures "path" !in dataset ==> r == Err(KeyError("path"))
    ensures r.Ok? <==> "path" in dataset && dataset["path"].StrV?
    ensures r.Ok? ==> r.value.datasetName == Basename(dataset["path"].s) && r.value.teacher == teacher
                      && r.value.learner == learner && r.value.dataset == dataset && r.value.protocol == protocol
  {
    if "path" !in dataset then Err(KeyError("path"))
    else if !dataset["path"].StrV? then Err(TypeError("expected str, bytes or os.PathLike object"))
    else Ok(Configs(teacherName, learnerName, teacher, learner, dest, dataset, protocol, Basename(dataset["path"].s)))
  }

  /** The sections `read_configuration_file` insists on. */
  predicate HasSections(file: map<string, Section>) {
    "teacher" in file && "learner" in file && "dataset" in file && "destination" in file
  }

  /** Everything `read_configuration_file` reads parses. */
  predicate Readable(file: map<string, Section>, decode: string -> Result<Json>)
    requires forall s | s in file :: Distinct(Keys(file[s]))
  {
    HasSections(file)
    && ParseNamedSection(file["teacher"], decode).Ok?
    && ParseNamedSection(file["learner"], decode).Ok?
    && ParseDatasetSection(file["dataset"], decode).Ok?
    && "path" in Keys(file["destination"])
    && ("protocol" in file ==> ParseProtocolSection(file["protocol"], decode).Ok?)
    && ParseDatasetSection(file["dataset"], decode).value["path"].StrV?
  }

  /** `read_configuration_file` after `configparser`: the four sections
      must exist, `destination` needs a `path`, `protocol` is optional and
      empty when missing. */
  function ReadConfiguration(file: map<string, Section>, decode: string -> Result<Json>): (r: Result<Configs>)
    requires forall s | s in file :: Distinct(Keys(file[s]))
    ensures !HasSections(file) ==> r.Err? && r.error.AssertionError?
    ensures r.Ok? <==> Readable(file, decode)
    ensures r.Ok? ==> r.value.Valid()
    ensures r.Ok? ==> r.value.teacher == ParseNamedSection(file["teacher"], decode).value.1
                      && r.value.learner == ParseNamedSection(file["learner"], decode).value.1
                      && r.value.dataset == ParseDatasetSection(file["dataset"], decode).value
                      && r.value.dest == ParseString(Lookup(file["destination"], "path").value)
    ensures r.Ok? ==> r.value.protocol == if "protocol" in file then ParseProtocolSection(file["protocol"], decode).value else map[]
  {
    if "teacher" !in file then Err(AssertionError("no section teacher"))
    else if "learner" !in file then Err(AssertionError("no section learner"))
    else if "dataset" !in file then Err(AssertionError("no section dataset"))
    else if "destination" !in file then Err(AssertionError("no section destination"))
    else
      var (teacherName, teacher) :- ParseNamedSection(file["teacher"], decode);
      var (learnerName, learner) :- ParseNamedSection(file["learner"], decode);
      var dataset :- ParseDatasetSection(file["dataset"], decode);
      var dest := Lookup(file["destination"], "path");
      if dest.None? then Err(KeyError("path"))
      else
        var protocol :- if "protocol" in file then ParseProtocolSection(file["protocol"], decode) else Ok(map[]);
        NewConfigs(teacherName, learnerName, teacher, learner, ParseString(dest.value), dataset, protocol)
  }

  /** `__iter__`: it already stops when some teacher parameter has no
      candidate. */
  function Iter(c: Configs): (r: Result<Cursor>)
    ensures r.Ok? ==> CursorValid(r.value)
    ensures r.Err? <==> Combinations(c.teacher) == 0
    ensures r.Err? ==> r.error == StopIteration
  {
    LimitsCount(c.teacher);
    Start(Limits(c.teacher), Limits(c.learner))
  }

  /** `__next__`: the counters move on, and the pair they hand out picks
      the teacher's and the learner's arguments. */
  function Next(c: Configs, cur: Cursor): (r: Result<(Cursor, TestConfiguration)>)
    requires CursorValid(cur)
    ensures r.Ok? ==> CursorValid(r.value.0)
    ensures CI.QtdLeft(cur.learnerIt) == 0 && CI.QtdLeft(cur.teacherIt) == 0 ==> r == Err(StopIteration)
    ensures Advance(cur, Limits(c.learner)).Err? ==> r.Err? && r.error == Advance(cur, Limits(c.learner)).error
    ensures r.Ok? ==> (r.value.1.teacherName == c.teacherName && r.value.1.learnerName == c.learnerName
                       && r.value.1.dataset == c.dataset && r.value.1.protocol == c.protocol
                       && r.value.1.dest == c.dest && r.value.1.datasetName == c.datasetName)
  {
    var (cur1, vl) :- Advance(cur, Limits(c.learner));
    var dt :- Pick(c.teacher, cur1.vTeacher);
    var dl :- Pick(c.learner, vl);
    Ok((cur1, TestConfiguration(c.teacherName, c.learnerName, dt, dl, c.dest, c.dataset, c.protocol, c.datasetName)))
  }

  /** `n` calls of `__next__`, stopping at the first error. */
  function Collect(c: Configs, cur: Cursor, n: nat): (r: Result<(Cursor, seq<TestConfiguration>)>)
    requires CursorValid(cur)
    ensures r.Ok? ==> CursorValid(r.value.0) && |r.value.1| == n
    decreases n
  {
    if n == 0 then Ok((cur, []))
    else
      var (cur', x) :- Next(c, cur);
      var (cur'', xs) :- Collect(c, cur', n - 1);
      Ok((cur'', [x] + xs))
  }

  // ---------------------------------------------------------------------
  // What the iteration hands out

  /** A pair of vectors the counters can hand out. */
  predicate InGrid(c: Configs, pr: (seq<int>, seq<int>)) {
    CI.InRange(pr.0, Limits(c.teacher)) && CI.InRange(pr.1, Limits(c.learner))
  }

  /** The experiment for a teacher vector and a learner vector. */
  function Experiment(c: Configs, pr: (seq<int>, seq<int>)): TestConfiguration
    requires InGrid(c, pr)
  {
    PickOk(c.teacher, pr.0);
    PickOk(c.learner, pr.1);
    TestConfiguration(c.teacherName, c.learnerName, Pick(c.teacher, pr.0).value, Pick(c.learner, pr.1).value,
                      c.dest, c.dataset, c.protocol, c.datasetName)
  }

  /** The experiments of a list of pairs from the grid, in order. */
  function Experiments(c: Configs, ps: seq<(seq<int>, seq<int>)>): (r: seq<TestConfiguration>)
    requires forall j | 0 <= j < |ps| :: InGrid(c, ps[j])
    ensures |r| == |ps|
    ensures forall j | 0 <= j < |ps| :: r[j] == Experiment(c, ps[j])
  {
    if |ps| == 0 then [] else [Experiment(c, ps[0])] + Experiments(c, ps[1..])
  }

  /** A step of the counters onto a pair of the grid is a `__next__` that
      returns the experiment of that pair. */
  lemma {:induction false} NextStep(c: Configs, cur: Cursor)
    requires CursorValid(cur) && Advance(cur, Limits(c.learner)).Ok?
    requires InGrid(c, (Advance(cur, Limits(c.learner)).value.0.vTeacher, Advance(cur, Limits(c.learner)).value.1))
    ensures Next(c, cur) == Ok((Advance(cur, Limits(c.learner)).value.0,
      Experiment(c, (Advance(cur, Limits(c.learner)).value.0.vTeacher, Advance(cur, Limits(c.learner)).value.1))))
  {
    var (cur1, vl) := Advance(cur, Limits(c.learner)).value;
    PickOk(c.teacher, cur1.vTeacher);
    PickOk(c.learner, vl);
  }

  /** `n > 0` calls of `__next__` are one call and `n - 1` more. */
  lemma {:induction false} CollectCons(c: Configs, cur: Cursor, n: nat)
    requires CursorValid(cur) && n > 0 && Next(c, cur).Ok? && Collect(c, Next(c, cur).value.0, n - 1).Ok?
    ensures Collect(c, cur, n) == Ok((Collect(c, Next(c, cur).value.0, n - 1).value.0,
      [Next(c, cur).value.1] + Collect(c, Next(c, cur).value.0, n - 1).value.1))
  {
  }

  /** `__next__` turns each pair the counters hand out into the experiment
      of that pair, and leaves the counters where the pairs leave them. */
  lemma {:induction false} CollectWalk(c: Configs, cur: Cursor, n: nat, last: Cursor, ps: seq<(seq<int>, seq<int>)>)
    requires CursorValid(cur) && Walk(cur, Limits(c.learner), n) == Ok((last, ps))
    requires forall j | 0 <= j < |ps| :: InGrid(c, ps[j])
    ensures Collect(c, cur, n) == Ok((last, Experiments(c, ps)))
    decreases n
  {
    if n > 0 {
      var ul := Limits(c.learner);
      WalkCons(cur, ul, n);
      var cur1 := Advance(cur, ul).value.0;
      var rest := Walk(cur1, ul, n - 1).value.1;
      assert ps[0] == (cur1.vTeacher, Advance(cur, ul).value.1);
      assert ps[1..] == rest;
      NextStep(c, cur);
      assert Walk(cur1, ul, n - 1) == Ok((last, rest));
      forall j | 0 <= j < |rest|
        ensures InGrid(c, rest[j])
      {
        assert rest[j] == ps[j + 1];
      }
      CollectWalk(c, cur1, n - 1, last, rest);
      CollectCons(c, cur, n);
    }
  }

  /** How many pairs the two counters hand out together. */
  function GridSize(c: Configs): int {
    CI.Product(Limits(c.teacher)) * CI.Product(Limits(c.learner))
  }

  /** Where the counters hand out teacher vector `vt` with learner vector
      `vl`: the teacher's counter is the high place. */
  function Position(c: Configs, vt: seq<int>, vl: seq<int>): int
    requires |vt| == |c.teacher| && |vl| == |c.learner|
  {
    CI.Value(vl, Limits(c.learner)) + CI.Product(Limits(c.learner)) * CI.Value(vt, Limits(c.teacher))
  }

  /** The pair at a vector pair's position is that vector pair. */
  lemma {:induction false} PositionPair(c: Configs, vt: seq<int>, vl: seq<int>)
    requires c.Full() && CI.InRange(vt, Limits(c.teacher)) && CI.InRange(vl, Limits(c.learner))
    ensures 0 <= Position(c, vt, vl) < GridSize(c)
    ensures PairAt(Limits(c.teacher), Limits(c.learner), Position(c, vt, vl)) == (vt, vl)
  {
    PairAtValue(Limits(c.teacher), Limits(c.learner), vt, vl);
  }

  /** The counters of `__iter__` walk the whole grid in order, one pair
      per combination, and are used up at its end. */
  lemma {:induction false} GridWalk(c: Configs)
    requires c.Full()
    ensures Iter(c).Ok? && GridSize(c) == Combinations(c.teacher) * Combinations(c.learner)
    ensures Walk(Iter(c).value, Limits(c.learner), GridSize(c)).Ok?
    ensures Walk(Iter(c).value, Limits(c.learner), GridSize(c)).value.1 ==
              Pairs(Limits(c.teacher), Limits(c.learner), 0, GridSize(c))
    ensures CI.QtdLeft(Walk(Iter(c).value, Limits(c.learner), GridSize(c)).value.0.teacherIt) == 0
    ensures CI.QtdLeft(Walk(Iter(c).value, Limits(c.learner), GridSize(c)).value.0.learnerIt) == 0
  {
    var ut, ul := Limits(c.teacher), Limits(c.learner);
    var n := GridSize(c);
    LimitsCount(c.teacher);
    LimitsCount(c.learner);
    StartAt(ut, ul);
    var cur := Iter(c).value;
    StateMoved(cur, ut, ul, (0, 0), Coord(CI.Product(ul), 0));
    WalkRun(cur, ut, ul, 0, n, n, CI.Product(ut), CI.Product(ul));
    WalkEnd(Walk(cur, ul, n).value.0, ut, ul, CI.Product(ut), CI.Product(ul));
  }

  /** The whole grid, teacher-major: `__iter__` and then as many calls of
      `__next__` as there are combinations hand out the experiment of
      every pair of the grid in order, and the next call stops. */
  lemma {:induction false} Enumerates(c: Configs)
    requires c.Full()
    ensures Iter(c).Ok? && GridSize(c) == Combinations(c.teacher) * Combinations(c.learner)
    ensures Collect(c, Iter(c).value, GridSize(c)).Ok?
    ensures Next(c, Collect(c, Iter(c).value, GridSize(c)).value.0) == Err(StopIteration)
    ensures forall p | 0 <= p < GridSize(c) :: Collect(c, Iter(c).value, GridSize(c)).value.1[p]
              == Experiment(c, PairAt(Limits(c.teacher), Limits(c.learner), p))
  {
    var ut, ul := Limits(c.teacher), Limits(c.learner);
    var n := GridSize(c);
    GridWalk(c);
    var cur := Iter(c).value;
    var w := Walk(cur, ul, n).value;
    PairsAt(ut, ul, 0, n);
    forall j | 0 <= j < n
      ensures w.1[j] == PairAt(ut, ul, j) && InGrid(c, w.1[j])
    {
      assert w.1[j] == w.1[j - 0];
    }
    CollectWalk(c, cur, n, w.0, w.1);
  }

  /** Every teacher combination paired with every learner combination is
      handed out, at the position its two counters give. */
  lemma {:induction false} EnumeratesEach(c: Configs)
    requires c.Full()
    ensures Iter(c).Ok? && Collect(c, Iter(c).value, GridSize(c)).Ok?
    ensures forall vt, vl | CI.InRange(vt, Limits(c.teacher)) && CI.InRange(vl, Limits(c.learner)) ::
      0 <= Position(c, vt, vl) < GridSize(c)
      && Collect(c, Iter(c).value, GridSize(c)).value.1[Position(c, vt, vl)] == Experiment(c, (vt, vl))
  {
    Enumerates(c);
    forall vt, vl | CI.InRange(vt, Limits(c.teacher)) && CI.InRange(vl, Limits(c.learner))
      ensures 0 <= Position(c, vt, vl) < GridSize(c)
      ensures Collect(c, Iter(c).value, GridSize(c)).value.1[Position(c, vt, vl)] == Experiment(c, (vt, vl))
    {
      PositionPair(c, vt, vl);
    }
  }

  /** A parameter with an empty list of candidates empties the grid: on the
      teacher's side `__iter__` already stops, on the learner's side the
      first `__next__` does. */
  lemma {:induction false} NoCandidates(c: Configs)
    ensures (exists i | 0 <= i < |c.teacher| :: c.teacher[i].1 == []) ==> Iter(c) == Err(StopIteration)
    ensures (exists i | 0 <= i < |c.learner| :: c.learner[i].1 == []) && Iter(c).Ok? ==>
              Next(c, Iter(c).value) == Err(StopIteration)
  {
    var ut, ul := Limits(c.teacher), Limits(c.learner);
    if i :| 0 <= i < |c.teacher| && c.teacher[i].1 == [] {
      CI.ProductZero(ut);
      assert ut[i] == -1;
    }
    if i :| 0 <= i < |c.learner| && c.learner[i].1 == [] {
      CI.ProductZero(ul);
      assert ul[i] == -1;
    }
  }
}
