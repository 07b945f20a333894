/** Topics are strings of words separated by dots. This module gives the meaning of cutting a
    topic into words and gluing words back, and shows that the two are inverse. */
module Words {
  predicate DotFree(w: string) {
    '.' !in w
  }

  /** One more character in front of a list of words: a dot starts a new word. */
  function Prepend(c: char, ws: seq<string>): seq<string>
    requires |ws| >= 1
  {
    if c == '.' then [""] + ws else [[c] + ws[0]] + ws[1..]
  }

  /** The words of a topic: cut at every dot. There is always at least one word, possibly empty. */
  function Split(s: string): (ws: seq<string>)
    ensures |ws| >= 1
    ensures forall i | 0 <= i < |ws| :: DotFree(ws[i])
  {
    if s == "" then [""] else Prepend(s[0], Split(s[1..]))
  }

  function Join(ws: seq<string>): string {
    if |ws| == 0 then ""
    else if |ws| == 1 then ws[0]
    else ws[0] + ("." + Join(ws[1..]))
  }

  lemma Associate(a: string, b: string, c: string)
    ensures a + b + c == a + (b + c)
  {
  }

  lemma JoinCons(w: string, ws: seq<string>)
    requires |ws| >= 1
    ensures Join([w] + ws) == w + ("." + Join(ws))
  {
    assert ([w] + ws)[1..] == ws;
  }

  lemma JoinLongerWord(c: char, w: string, ws: seq<string>)
    requires |ws| >= 1
    ensures Join([[c] + w] + ws) == [c] + Join([w] + ws)
  {
    JoinCons([c] + w, ws);
    JoinCons(w, ws);
    Associate([c], w, "." + Join(ws));
  }

  lemma JoinPrepend(c: char, ws: seq<string>)
    requires |ws| >= 1
    ensures Join(Prepend(c, ws)) == [c] + Join(ws)
  {
    if c == '.' {
      JoinCons("", ws);
      assert "" + ("." + Join(ws)) == [c] + Join(ws);
    } else if |ws| > 1 {
      JoinLongerWord(c, ws[0], ws[1..]);
      assert [ws[0]] + ws[1..] == ws;
    } else {
      assert [[c] + ws[0]] + ws[1..] == [[c] + ws[0]];
    }
  }

  lemma {:induction false} JoinSplit(s: string)
    ensures Join(Split(s)) == s
  {
    if s != "" {
      JoinSplit(s[1..]);
      JoinPrepend(s[0], Split(s[1..]));
    }
  }

  lemma SplitInjective(a: string, b: string)
    requires Split(a) == Split(b)
    ensures a == b
  {
    JoinSplit(a);
    JoinSplit(b);
  }

  lemma PrependConcat(c: char, x: seq<string>, y: seq<string>)
    requires |x| >= 1
    ensures Prepend(c, x + y) == Prepend(c, x) + y
  {
    assert (x + y)[1..] == x[1..] + y;
  }

  /** A dot in the middle of a string is a boundary between the words of its two sides. */
  lemma {:induction false} SplitConcat(a: string, b: string)
    ensures Split(a + "." + b) == Split(a) + Split(b)
  {
    var s := a + "." + b;
    if a == "" {
      assert s[0] == '.' && s[1..] == b;
    } else {
      assert s[0] == a[0] && s[1..] == a[1..] + "." + b;
      SplitConcat(a[1..], b);
      PrependConcat(a[0], Split(a[1..]), Split(b));
    }
  }

  lemma {:induction false} SplitWord(w: string)
    requires DotFree(w)
    ensures Split(w) == [w]
  {
    if w != "" {
      assert w == [w[0]] + w[1..];
      assert forall c :: c in w[1..] ==> c in w;
      SplitWord(w[1..]);
    }
  }

  lemma SplitCons(a: string, z: string)
    requires DotFree(a)
    ensures Split(a + "." + z) == [a] + Split(z)
  {
    SplitConcat(a, z);
    SplitWord(a);
  }

  lemma SplitCons3(a: string, b: string, c: string, z: string)
    requires DotFree(a) && DotFree(b) && DotFree(c)
    ensures Split(a + "." + (b + "." + (c + "." + z))) == [a, b, c] + Split(z)
  {
    SplitCons(a, b + "." + (c + "." + z));
    SplitCons(b, c + "." + z);
    SplitCons(c, z);
  }

  lemma SplitTwoWords(a: string, b: string)
    requires DotFree(a) && DotFree(b)
    ensures Split(a + "." + b) == [a, b]
  {
    SplitCons(a, b);
    SplitWord(b);
  }

  lemma SplitThreeWords(a: string, b: string, c: string)
    requires DotFree(a) && DotFree(b) && DotFree(c)
    ensures Split(a + "." + (b + "." + c)) == [a, b, c]
  {
    SplitCons(a, b + "." + c);
    SplitTwoWords(b, c);
  }

  lemma {:induction false} SplitJoin(ws: seq<string>)
    requires |ws| >= 1 && forall i | 0 <= i < |ws| :: DotFree(ws[i])
    ensures Split(Join(ws)) == ws
  {
    SplitWord(ws[0]);
    if |ws| > 1 {
      SplitJoin(ws[1..]);
      SplitConcat(ws[0], Join(ws[1..]));
      Associate(ws[0], ".", Join(ws[1..]));
      assert ws == [ws[0]] + ws[1..];
    }
  }

  lemma PrefixDecides(a: string, x: string, y: string)
    requires a + x == a + y
    ensures x == y
  {
    assert (a + x)[|a|..] == x;
    assert (a + y)[|a|..] == y;
  }
}
