/** Topic names and topic patterns (util.go): matching with `*` for exactly one word and `#` for
    any number of words, the meaning of topic patterns in AMQP 0-9-1, section 3.1.3.3. */
module Topics {
  import opened Words

  // ---------------------------------------------------------------- the matcher

  /** The value the backtracking matcher computes: a `#` tries every number of words. */
  predicate MatchTokens(p: seq<string>, t: seq<string>)
    decreases |p|
  {
    if |p| == 0 then |t| == 0
    else if p[0] == "#" then
      |p| == 1 || exists i | 0 <= i <= |t| :: MatchTokens(p[1..], t[i..])
    else if |t| == 0 then false
    else if p[0] == "*" then MatchTokens(p[1..], t[1..])
    else p[0] == t[0] && MatchTokens(p[1..], t[1..])
  }

  /** The matcher as the program runs it: recursion with a search loop over the split point. */
  method MatchTopicTokens(p: seq<string>, t: seq<string>) returns (ok: bool)
    ensures ok == MatchTokens(p, t)
    decreases |p|
  {
    if |p| == 0 {
      return |t| == 0;
    }
    if p[0] == "#" {
      if |p| == 1 {
        return true;
      }
      for i := 0 to |t| + 1
        invariant forall j | 0 <= j < i :: !MatchTokens(p[1..], t[j..])
      {
        var found := MatchTopicTokens(p[1..], t[i..]);
        if found {
          return true;
        }
      }
      return false;
    }
    if |t| == 0 {
      return false;
    }
    if p[0] != "*" && p[0] != t[0] {
      return false;
    }
    ok := MatchTopicTokens(p[1..], t[1..]);
  }

  predicate HasWildcardChar(s: string) {
    '*' in s || '#' in s
  }

  /** The string-level entry point, with its short cuts before any splitting. */
  predicate MatchTopic(pattern: string, topic: string) {
    if pattern == topic then true
    else if pattern == "" || topic == "" then pattern == topic
    else if !HasWildcardChar(pattern) then false
    else MatchTokens(Split(pattern), Split(topic))
  }

  // ---------------------------------------------------------------- declarative meaning

  /** What one pattern token stands for. */
  predicate Covers(token: string, segment: seq<string>) {
    if token == "#" then true
    else if token == "*" then |segment| == 1
    else segment == [token]
  }

  function Flatten(segments: seq<seq<string>>): seq<string> {
    if |segments| == 0 then [] else segments[0] + Flatten(segments[1..])
  }

  /** The topic is cut into consecutive segments, one for each token of the pattern. */
  ghost predicate Divides(p: seq<string>, t: seq<string>, segments: seq<seq<string>>) {
    && |segments| == |p|
    && Flatten(segments) == t
    && forall i | 0 <= i < |p| :: Covers(p[i], segments[i])
  }

  lemma DividesTail(p: seq<string>, t: seq<string>, segments: seq<seq<string>>)
    requires Divides(p, t, segments) && |p| > 0
    ensures |segments[0]| <= |t| && segments[0] == t[..|segments[0]|]
    ensures Divides(p[1..], t[|segments[0]|..], segments[1..])
  {
    assert t == segments[0] + Flatten(segments[1..]);
  }

  lemma DividesCons(p: seq<string>, t: seq<string>, i: nat, segments: seq<seq<string>>)
    requires |p| > 0 && i <= |t| && Covers(p[0], t[..i]) && Divides(p[1..], t[i..], segments)
    ensures Divides(p, t, [t[..i]] + segments)
  {
    var all := [t[..i]] + segments;
    assert all[1..] == segments;
    assert t == t[..i] + t[i..];
    forall k | 0 <= k < |p| ensures Covers(p[k], all[k]) {
      if k > 0 {
        assert p[1..][k - 1] == p[k] && segments[k - 1] == all[k];
      }
    }
  }

  lemma {:induction false} DivisionFromMatch(p: seq<string>, t: seq<string>) returns (segments: seq<seq<string>>)
    requires MatchTokens(p, t)
    ensures Divides(p, t, segments)
    decreases |p|
  {
    if |p| == 0 {
      segments := [];
    } else if p == ["#"] {
      DividesCons(p, t, |t|, []);
      segments := [t[..|t|]];
    } else if p[0] == "#" {
      var i :| 0 <= i <= |t| && MatchTokens(p[1..], t[i..]);
      var rest := DivisionFromMatch(p[1..], t[i..]);
      DividesCons(p, t, i, rest);
      segments := [t[..i]] + rest;
    } else {
      var rest := DivisionFromMatch(p[1..], t[1..]);
      DividesCons(p, t, 1, rest);
      segments := [t[..1]] + rest;
    }
  }

  lemma {:induction false} MatchFromDivision(p: seq<string>, t: seq<string>, segments: seq<seq<string>>)
    requires Divides(p, t, segments)
    ensures MatchTokens(p, t)
    decreases |p|
  {
    if |p| > 0 {
      DividesTail(p, t, segments);
      assert Covers(p[0], segments[0]);
      MatchFromDivision(p[1..], t[|segments[0]|..], segments[1..]);
    }
  }

  /** The backtracking matcher decides exactly the AMQP meaning of a pattern. */
  lemma MatchIffDivision(p: seq<string>, t: seq<string>)
    ensures MatchTokens(p, t) <==> exists segments :: Divides(p, t, segments)
  {
    if MatchTokens(p, t) {
      var segments := DivisionFromMatch(p, t);
    }
    if segments :| Divides(p, t, segments) {
      MatchFromDivision(p, t, segments);
    }
  }

  // ---------------------------------------------------------------- algebra of patterns

  lemma HashSkips(p: seq<string>, t: seq<string>, j: nat)
    requires |p| > 0 && p[0] == "#" && j <= |t| && MatchTokens(p[1..], t[j..])
    ensures MatchTokens(p, t)
  {
  }

  lemma {:induction false} MatchPieces(p: seq<string>, q: seq<string>, t: seq<string>, i: nat)
    requires i <= |t| && MatchTokens(p, t[..i]) && MatchTokens(q, t[i..])
    ensures MatchTokens(p + q, t)
    decreases |p|
  {
    if |p| == 0 {
      assert p + q == q && t[i..] == t;
    } else {
      assert (p + q)[1..] == p[1..] + q;
      var front := t[..i];
      if p == ["#"] {
        assert p + q == ["#"] + q;
        if |q| > 0 {
          HashSkips(p + q, t, i);
        }
      } else if p[0] == "#" {
        var j :| 0 <= j <= |front| && MatchTokens(p[1..], front[j..]);
        assert front[j..] == t[j..][..i - j] && t[i..] == t[j..][i - j..];
        MatchPieces(p[1..], q, t[j..], i - j);
        HashSkips(p + q, t, j);
      } else {
        assert front[1..] == t[1..][..i - 1] && t[i..] == t[1..][i - 1..];
        MatchPieces(p[1..], q, t[1..], i - 1);
      }
    }
  }

  lemma {:induction false} MatchSplitPoint(p: seq<string>, q: seq<string>, t: seq<string>) returns (i: nat)
    requires MatchTokens(p + q, t)
    ensures i <= |t| && MatchTokens(p, t[..i]) && MatchTokens(q, t[i..])
    decreases |p|
  {
    if |p| == 0 {
      assert p + q == q && t[0..] == t;
      i := 0;
    } else {
      assert (p + q)[1..] == p[1..] + q;
      if p[0] == "#" {
        if |p + q| == 1 {
          assert q == [] && t[|t|..] == [] && t[..|t|] == t;
          i := |t|;
        } else {
          var j :| 0 <= j <= |t| && MatchTokens(p[1..] + q, t[j..]);
          var k := MatchSplitPoint(p[1..], q, t[j..]);
          i := j + k;
          assert t[..i][j..] == t[j..][..k] && t[j..][k..] == t[i..];
          HashSkips(p, t[..i], j);
        }
      } else {
        var k := MatchSplitPoint(p[1..], q, t[1..]);
        i := k + 1;
        assert t[..i][1..] == t[1..][..k] && t[1..][k..] == t[i..];
      }
    }
  }

  /** Concatenation law: a composite pattern matches exactly the composite topics. */
  lemma MatchConcat(p: seq<string>, q: seq<string>, t: seq<string>)
    ensures MatchTokens(p + q, t) <==>
            exists i | 0 <= i <= |t| :: MatchTokens(p, t[..i]) && MatchTokens(q, t[i..])
  {
    if MatchTokens(p + q, t) {
      var i := MatchSplitPoint(p, q, t);
    }
    if i :| 0 <= i <= |t| && MatchTokens(p, t[..i]) && MatchTokens(q, t[i..]) {
      MatchPieces(p, q, t, i);
    }
  }

  function Reverse(ws: seq<string>): (r: seq<string>)
    ensures |r| == |ws|
    ensures forall i | 0 <= i < |ws| :: r[i] == ws[|ws| - 1 - i]
  {
    if |ws| == 0 then [] else Reverse(ws[1..]) + [ws[0]]
  }

  lemma ReverseTwice(ws: seq<string>)
    ensures Reverse(Reverse(ws)) == ws
  {
  }

  lemma MatchOneToken(token: string, t: seq<string>)
    ensures MatchTokens([token], t) <==> Covers(token, t)
  {
    if |t| > 0 {
      assert [token][1..] == [];
      assert t == [t[0]] + t[1..];
    }
  }

  lemma {:induction false} MatchReversedOneWay(p: seq<string>, t: seq<string>)
    requires MatchTokens(p, t)
    ensures MatchTokens(Reverse(p), Reverse(t))
    decreases |p|
  {
    if |p| > 0 {
      assert p == [p[0]] + p[1..];
      var i := MatchSplitPoint([p[0]], p[1..], t);
      MatchReversedOneWay(p[1..], t[i..]);
      MatchOneToken(p[0], t[..i]);
      var front := Reverse(t[i..]);
      assert Reverse(t)[..|t| - i] == front;
      assert Reverse(t)[|t| - i..] == Reverse(t[..i]);
      assert p[0] != "#" ==> Reverse(t[..i]) == t[..i];
      MatchOneToken(p[0], Reverse(t[..i]));
      MatchPieces(Reverse(p[1..]), [p[0]], Reverse(t), |t| - i);
    }
  }

  /** Reading pattern and topic from right to left gives the same answer. */
  lemma MatchReversed(p: seq<string>, t: seq<string>)
    ensures MatchTokens(Reverse(p), Reverse(t)) == MatchTokens(p, t)
  {
    if MatchTokens(p, t) {
      MatchReversedOneWay(p, t);
    }
    if MatchTokens(Reverse(p), Reverse(t)) {
      MatchReversedOneWay(Reverse(p), Reverse(t));
      ReverseTwice(p);
      ReverseTwice(t);
    }
  }

  /** Two patterns that match the same topics may replace each other inside any pattern. */
  lemma MatchCongruence(p: seq<string>, a: seq<string>, b: seq<string>, q: seq<string>, t: seq<string>)
    requires forall u :: MatchTokens(a, u) == MatchTokens(b, u)
    ensures MatchTokens(p + a + q, t) == MatchTokens(p + b + q, t)
  {
    if MatchTokens(p + a + q, t) {
      var i := MatchSplitPoint(p + a, q, t);
      var j := MatchSplitPoint(p, a, t[..i]);
      MatchPieces(p, b, t[..i], j);
      MatchPieces(p + b, q, t, i);
    }
    if MatchTokens(p + b + q, t) {
      var i := MatchSplitPoint(p + b, q, t);
      var j := MatchSplitPoint(p, b, t[..i]);
      MatchPieces(p, a, t[..i], j);
      MatchPieces(p + a, q, t, i);
    }
  }

  lemma HashHash(t: seq<string>)
    ensures MatchTokens(["#", "#"], t) && MatchTokens(["#"], t)
  {
    assert ["#", "#"][1..] == ["#"];
    assert MatchTokens(["#"], t[0..]);
  }

  lemma HashStarNonempty(t: seq<string>)
    ensures MatchTokens(["#", "*"], t) == (|t| >= 1)
    ensures MatchTokens(["*", "#"], t) == (|t| >= 1)
  {
    assert ["#", "*"][1..] == ["*"] && ["*", "#"][1..] == ["#"];
    forall i | 0 <= i <= |t| ensures MatchTokens(["*"], t[i..]) == (i == |t| - 1) {
      MatchOneToken("*", t[i..]);
    }
    if |t| >= 1 {
      assert MatchTokens(["*"], t[|t| - 1..]);
    }
  }

  /** Inside any pattern, `#.#` means `#`, and `#.*` means `*.#`. */
  lemma HashLaws(p: seq<string>, q: seq<string>, t: seq<string>)
    ensures MatchTokens(p + ["#", "#"] + q, t) == MatchTokens(p + ["#"] + q, t)
    ensures MatchTokens(p + ["#", "*"] + q, t) == MatchTokens(p + ["*", "#"] + q, t)
  {
    forall u ensures MatchTokens(["#", "#"], u) == MatchTokens(["#"], u)
             ensures MatchTokens(["#", "*"], u) == MatchTokens(["*", "#"], u)
    {
      HashHash(u);
      HashStarNonempty(u);
    }
    MatchCongruence(p, ["#", "#"], ["#"], q, t);
    MatchCongruence(p, ["#", "*"], ["*", "#"], q, t);
  }

  // ---------------------------------------------------------------- the fast path

  /** A sequence of words always matches itself, even if some of its words are wildcards. */
  lemma {:induction false} MatchesItself(ws: seq<string>)
    ensures MatchTokens(ws, ws)
    decreases |ws|
  {
    if |ws| > 0 {
      MatchesItself(ws[1..]);
      if ws[0] == "#" && |ws| > 1 {
        assert MatchTokens(ws[1..], ws[1..]);
      }
    }
  }

  predicate HasWildcardToken(p: seq<string>) {
    "*" in p || "#" in p
  }

  lemma {:induction false} PlainMatchesOnlyItself(p: seq<string>, t: seq<string>)
    requires !HasWildcardToken(p) && MatchTokens(p, t)
    ensures p == t
    decreases |p|
  {
    if |p| > 0 {
      PlainMatchesOnlyItself(p[1..], t[1..]);
      assert p == [p[0]] + p[1..] && t == [t[0]] + t[1..];
    }
  }

  lemma {:induction false} WordCharsFromTopic(s: string, w: string, c: char)
    requires w in Split(s) && c in w
    ensures c in s
    decreases |s|
  {
    if s != "" {
      var rest := Split(s[1..]);
      if w in rest {
        WordCharsFromTopic(s[1..], w, c);
      } else if s[0] != '.' {
        assert w == [s[0]] + rest[0];
        if c != s[0] {
          WordCharsFromTopic(s[1..], rest[0], c);
        }
      }
    }
  }

  lemma WildcardTokenHasChar(s: string)
    ensures HasWildcardToken(Split(s)) ==> HasWildcardChar(s)
  {
    if "*" in Split(s) {
      WordCharsFromTopic(s, "*", '*');
    }
    if "#" in Split(s) {
      WordCharsFromTopic(s, "#", '#');
    }
  }

  lemma SplitNonempty(s: string)
    ensures s == "" <==> Split(s) == [""]
  {
    if s != "" && Split(s) == [""] {
      SplitInjective(s, "");
    }
  }

  /** Splitting first and matching words gives the answer of the short cuts, except that the
      empty topic is matched by nothing but the empty pattern. */
  lemma FastPathRefinesTokens(pattern: string, topic: string)
    ensures MatchTopic(pattern, topic) ==
            (MatchTokens(Split(pattern), Split(topic)) && (topic == "" ==> pattern == ""))
  {
    if pattern == topic {
      MatchesItself(Split(pattern));
    } else if pattern == "" && topic != "" {
      SplitNonempty(topic);
      if MatchTokens([""], Split(topic)) {
        PlainMatchesOnlyItself([""], Split(topic));
      }
    } else if !HasWildcardChar(pattern) && MatchTokens(Split(pattern), Split(topic)) {
      WildcardTokenHasChar(pattern);
      PlainMatchesOnlyItself(Split(pattern), Split(topic));
      SplitInjective(pattern, topic);
    }
  }

  predicate AllHash(p: seq<string>) {
    forall i | 0 <= i < |p| :: p[i] == "#"
  }

  lemma {:induction false} MatchesNoWords(p: seq<string>)
    ensures MatchTokens(p, []) <==> AllHash(p)
    decreases |p|
  {
    if |p| > 0 {
      assert p == [p[0]] + p[1..];
      MatchesNoWords(p[1..]);
      if p[0] == "#" && |p| > 1 {
        var none: seq<string> := [];
        assert none[0..] == none;
      }
    }
  }

  /** One token can stand for the empty word, and all the others can stand for nothing. */
  predicate TakesEmptyWord(p: seq<string>, k: nat) {
    && k < |p|
    && (p[k] == "*" || p[k] == "#" || p[k] == "")
    && forall i | 0 <= i < |p| && i != k :: p[i] == "#"
  }

  lemma FirstTakesEmptyWord(p: seq<string>)
    requires |p| > 0
    ensures TakesEmptyWord(p, 0) <==> (p[0] == "*" || p[0] == "#" || p[0] == "") && AllHash(p[1..])
  {
    assert forall i | 0 < i < |p| :: p[i] == p[1..][i - 1];
    assert forall i | 0 <= i < |p| - 1 :: p[1..][i] == p[i + 1];
  }

  lemma LaterTakesEmptyWord(p: seq<string>, k: nat)
    requires 0 < k < |p|
    ensures TakesEmptyWord(p, k) <==> p[0] == "#" && TakesEmptyWord(p[1..], k - 1)
  {
    assert forall i | 0 < i < |p| :: p[i] == p[1..][i - 1];
    assert forall i | 0 <= i < |p| - 1 :: p[1..][i] == p[i + 1];
  }

  lemma HashThenEmptyWord(p: seq<string>)
    requires |p| > 1 && p[0] == "#"
    ensures MatchTokens(p, [""]) <==> MatchTokens(p[1..], [""]) || MatchTokens(p[1..], [])
  {
    var t := [""];
    assert t[0..] == t && t[1..] == [];
  }

  lemma {:induction false} EmptyWordTaker(p: seq<string>) returns (k: nat)
    requires MatchTokens(p, [""])
    ensures TakesEmptyWord(p, k)
    decreases |p|
  {
    FirstTakesEmptyWord(p);
    MatchesNoWords(p[1..]);
    k := 0;
    if |p| > 1 && p[0] == "#" {
      HashThenEmptyWord(p);
      if MatchTokens(p[1..], [""]) {
        var j := EmptyWordTaker(p[1..]);
        LaterTakesEmptyWord(p, j + 1);
        k := j + 1;
      }
    } else if p[0] != "#" {
      assert [""][1..] == [];
    }
  }

  lemma {:induction false} TakerMatches(p: seq<string>, k: nat)
    requires TakesEmptyWord(p, k)
    ensures MatchTokens(p, [""])
    decreases |p|
  {
    MatchesNoWords(p[1..]);
    if k > 0 {
      LaterTakesEmptyWord(p, k);
      TakerMatches(p[1..], k - 1);
      HashThenEmptyWord(p);
    } else {
      FirstTakesEmptyWord(p);
      if p[0] == "#" && |p| > 1 {
        HashThenEmptyWord(p);
      }
      assert [""][1..] == [];
    }
  }

  lemma MatchesEmptyWord(p: seq<string>)
    ensures MatchTokens(p, [""]) <==> exists k :: TakesEmptyWord(p, k)
  {
    if MatchTokens(p, [""]) {
      var k := EmptyWordTaker(p);
    }
    if k: nat :| TakesEmptyWord(p, k) {
      TakerMatches(p, k);
    }
  }

  /** The patterns for which the short cut answers the empty topic differently from AMQP: not
      empty themselves, and of one token `*`, `#` or the empty word, the others being `#`. */
  lemma EmptyTopicGap(pattern: string)
    ensures (MatchTopic(pattern, "") != MatchTokens(Split(pattern), Split(""))) <==>
            (pattern != "" && exists k :: TakesEmptyWord(Split(pattern), k))
    ensures !MatchTopic("#", "") && MatchTokens(Split("#"), Split(""))
  {
    FastPathRefinesTokens(pattern, "");
    MatchesEmptyWord(Split(pattern));
    SplitWord("#");
  }

  // ---------------------------------------------------------------- building topics

  function TopicPrefix(ns: string, component: string): string {
    "taskbus." + ns + "." + component + "."
  }

  function BuildTopic(ns: string, component: string, name: string): string {
    TopicPrefix(ns, component) + name
  }

  function WildcardTopic(ns: string, component: string): string {
    TopicPrefix(ns, component) + "#"
  }

  function TrimTopicPrefix(topic: string, prefix: string): (r: string)
    ensures prefix <= topic ==> prefix + r == topic
    ensures !(prefix <= topic) ==> r == topic
  {
    if prefix <= topic then topic[|prefix|..] else topic
  }
}
