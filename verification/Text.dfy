/** White space and words of a text. */
module Text {
  /** White space as Unicode defines it. */
  predicate IsSpace(c: char) {
    || '\t' <= c <= '\r' || c == ' ' || c == '\U{0085}' || c == '\U{00A0}' || c == '\U{1680}'
    || '\U{2000}' <= c <= '\U{200A}' || c == '\U{2028}' || c == '\U{2029}' || c == '\U{202F}'
    || c == '\U{205F}' || c == '\U{3000}'
  }

  /** The 25 code points with the Unicode property White_Space. */
  lemma SpaceCodes(c: char)
    ensures IsSpace(c) <==>
            c as int in {9, 10, 11, 12, 13, 32, 133, 160, 5760, 8192, 8193, 8194, 8195, 8196, 8197, 8198, 8199, 8200, 8201,
                         8202, 8232, 8233, 8239, 8287, 12288}
  {
  }

  function WordLength(s: string): (n: nat)
    ensures n <= |s|
    ensures forall i :: 0 <= i < n ==> !IsSpace(s[i])
    ensures n < |s| ==> IsSpace(s[n])
  {
    if s == "" || IsSpace(s[0]) then 0 else 1 + WordLength(s[1..])
  }

  /** The maximal runs of non-space characters, in order. */
  function Fields(s: string): seq<string>
    decreases |s|
  {
    if s == "" then []
    else if IsSpace(s[0]) then Fields(s[1..])
    else [s[..WordLength(s)]] + Fields(s[WordLength(s)..])
  }

  function TrimSpace(s: string): string {
    if s == "" then ""
    else if IsSpace(s[0]) then TrimSpace(s[1..])
    else if IsSpace(s[|s| - 1]) then TrimSpace(s[..|s| - 1])
    else s
  }

  predicate IsWord(w: string) {
    w != "" && forall i :: 0 <= i < |w| ==> !IsSpace(w[i])
  }

  lemma {:induction false} WordThenSpace(w: string, rest: string)
    requires forall i :: 0 <= i < |w| ==> !IsSpace(w[i])
    requires rest == "" || IsSpace(rest[0])
    ensures WordLength(w + rest) == |w|
  {
    if w == "" {
      assert w + rest == rest;
    } else {
      assert (w + rest)[1..] == w[1..] + rest;
      WordThenSpace(w[1..], rest);
    }
  }

  lemma FieldsOfWord(w: string, rest: string)
    requires IsWord(w) && (rest == "" || IsSpace(rest[0]))
    ensures Fields(w + rest) == [w] + Fields(rest)
  {
    WordThenSpace(w, rest);
    assert (w + rest)[..|w|] == w && (w + rest)[|w|..] == rest;
  }

  lemma {:induction false} FieldsDropLastSpace(s: string)
    requires s != "" && IsSpace(s[|s| - 1])
    ensures Fields(s[..|s| - 1]) == Fields(s)
    decreases |s|
  {
    hide IsSpace;
    if IsSpace(s[0]) {
      if |s| > 1 {
        assert s[1..][..|s| - 2] == s[..|s| - 1][1..];
        FieldsDropLastSpace(s[1..]);
      }
    } else {
      var n := WordLength(s);
      FieldsDropLastSpace(s[n..]);
      WordBeforeLastSpace(s, n);
    }
  }

  lemma WordBeforeLastSpace(s: string, n: nat)
    requires s != "" && IsSpace(s[|s| - 1]) && !IsSpace(s[0]) && n == WordLength(s)
    ensures n < |s|
    ensures Fields(s) == [s[..n]] + Fields(s[n..])
    ensures Fields(s[..|s| - 1]) == [s[..n]] + Fields(s[n..][..|s[n..]| - 1])
  {
    hide IsSpace, Fields;
    var w, rest, shorter := s[..n], s[n..], s[n..][..|s[n..]| - 1];
    assert s == w + rest && s[..|s| - 1] == w + shorter;
    FieldsOfWord(w, rest);
    FieldsOfWord(w, shorter);
  }

  lemma {:induction false} FieldsOfTrimmed(s: string)
    ensures Fields(TrimSpace(s)) == Fields(s)
    ensures TrimSpace(s) == "" <==> Fields(s) == []
    decreases |s|
  {
    if s != "" {
      if IsSpace(s[0]) {
        FieldsOfTrimmed(s[1..]);
      } else if IsSpace(s[|s| - 1]) {
        FieldsDropLastSpace(s);
        FieldsOfTrimmed(s[..|s| - 1]);
      }
    }
  }

  predicate AllSpaces(s: string) {
    forall i :: 0 <= i < |s| ==> IsSpace(s[i])
  }

  /** `t` is what is left of `s` between two runs of white space. */
  ghost predicate Within(t: string, s: string) {
    exists a, b :: AllSpaces(a) && AllSpaces(b) && s == a + t + b
  }

  lemma WithinLeft(t: string, s: string)
    requires s != "" && IsSpace(s[0]) && Within(t, s[1..])
    ensures Within(t, s)
  {
    var a, b :| AllSpaces(a) && AllSpaces(b) && s[1..] == a + t + b;
    hide IsSpace;
    assert AllSpaces([s[0]] + a);
    assert s == [s[0]] + s[1..] == [s[0]] + a + t + b;
  }

  lemma WithinRight(t: string, s: string)
    requires s != "" && IsSpace(s[|s| - 1]) && Within(t, s[..|s| - 1])
    ensures Within(t, s)
  {
    var a, b :| AllSpaces(a) && AllSpaces(b) && s[..|s| - 1] == a + t + b;
    hide IsSpace;
    assert AllSpaces(b + [s[|s| - 1]]);
    assert s == s[..|s| - 1] + [s[|s| - 1]] == a + t + (b + [s[|s| - 1]]);
  }

  /** Trimming drops white space at both ends, and all of it. */
  lemma {:induction false} TrimMeaning(s: string)
    ensures Within(TrimSpace(s), s)
    ensures TrimSpace(s) != "" ==> !IsSpace(TrimSpace(s)[0]) && !IsSpace(TrimSpace(s)[|TrimSpace(s)| - 1])
    decreases |s|
  {
    hide IsSpace;
    if s == "" || (!IsSpace(s[0]) && !IsSpace(s[|s| - 1])) {
      assert AllSpaces("") && s == "" + s + "";
    } else if IsSpace(s[0]) {
      TrimMeaning(s[1..]);
      hide Within;
      WithinLeft(TrimSpace(s), s);
    } else {
      TrimMeaning(s[..|s| - 1]);
      hide Within;
      WithinRight(TrimSpace(s), s);
    }
  }

  /** A space separates words wherever it stands. */
  lemma {:induction false} FieldsJoin(a: string, c: char, b: string)
    requires IsSpace(c)
    ensures Fields(a + [c] + b) == Fields(a) + Fields(b)
    decreases |a|
  {
    hide IsSpace;
    var s := a + [c] + b;
    if a == "" {
      assert s[1..] == b;
    } else if IsSpace(a[0]) {
      assert s[1..] == a[1..] + [c] + b;
      FieldsJoin(a[1..], c, b);
    } else {
      var n := WordLength(a);
      var rest := a[n..] + [c] + b;
      FieldsJoin(a[n..], c, b);
      hide *;
      assert s == a[..n] + rest && a == a[..n] + a[n..];
      FieldsOfWord(a[..n], rest);
      FieldsOfWord(a[..n], a[n..]);
    }
  }

  /** With `FieldsJoin` this fixes the words of any text. */
  lemma FieldsOfOne(w: string)
    requires IsWord(w)
    ensures Fields(w) == [w] && Fields("") == []
  {
    FieldsOfWord(w, "");
    assert w + "" == w;
  }
}
