/** The traversal check of `src/protocols/http.rs`: percent-decoding of `%`, `.` and `/` repeated
    until nothing changes, then a search for a `..` segment.

    The three substitutions are read as a string rewriting system. `NormalForm` computes its normal
    form in one right-to-left pass; the decode loop is proved to reach that same string, and the
    rewriting system is proved to have no other irreducible result. */
module PathDecoding {
  import opened Text

  // ----- the rewriting system -----

  /** The character a `%25`, `%2e` or `%2f` stands for, by its last hex digit. */
  function Decoded(digit: char): Option<char> {
    if digit == '5' then Some('%')
    else if digit == 'e' then Some('.')
    else if digit == 'f' then Some('/')
    else None
  }

  /** A redex `%25`, `%2e` or `%2f` starts at index `i`. */
  predicate RedexAt(s: string, i: nat) {
    i + 3 <= |s| && s[i] == '%' && s[i + 1] == '2' && Decoded(s[i + 2]).Some?
  }

  /** `s` with the redex at `i` contracted. */
  function Contract(s: string, i: nat): string
    requires RedexAt(s, i)
  {
    s[..i] + [Decoded(s[i + 2]).value] + s[i + 3..]
  }

  ghost predicate Irreducible(s: string) {
    forall i: nat :: i < |s| ==> !RedexAt(s, i)
  }

  /** `t` is reachable from `s` by exactly `n` contractions. */
  ghost predicate RewritesIn(s: string, t: string, n: nat)
    decreases n
  {
    if n == 0 then s == t
    else exists i: nat :: RedexAt(s, i) && RewritesIn(Contract(s, i), t, n - 1)
  }

  ghost predicate RewritesTo(s: string, t: string) {
    exists n: nat :: RewritesIn(s, t, n)
  }

  // ----- the normal form -----

  /** Puts `c` in front of the irreducible string `t`, contracting whatever redex appears. */
  function Push(c: char, t: string): (r: string)
    ensures |r| <= |t| + 1
    decreases |t|
  {
    if RedexAt([c] + t, 0) then
      var d := Decoded(t[1]).value;
      if d == '%' then Push('%', t[2..]) else [d] + t[2..]
    else [c] + t
  }

  /** Pushes the characters of `u`, last one first, onto `t`. */
  function PushAll(u: string, t: string): string
    decreases |u|
  {
    if u == "" then t else Push(u[0], PushAll(u[1..], t))
  }

  function NormalForm(s: string): string {
    PushAll(s, "")
  }

  lemma {:induction false} PushAllConcat(u: string, v: string, t: string)
    ensures PushAll(u + v, t) == PushAll(u, PushAll(v, t))
    decreases |u|
  {
    if u == "" {
      assert u + v == v;
    } else {
      assert (u + v)[1..] == u[1..] + v;
      PushAllConcat(u[1..], v, t);
    }
  }

  lemma {:induction false} PushIrreducible(c: char, t: string)
    requires Irreducible(t)
    ensures Irreducible(Push(c, t))
    decreases |t|
  {
    if RedexAt([c] + t, 0) {
      var rest := t[2..];
      assert forall i: nat :: i < |rest| ==> (RedexAt(rest, i) <==> RedexAt(t, i + 2));
      var d := Decoded(t[1]).value;
      if d == '%' {
        PushIrreducible('%', rest);
      } else {
        PrependIrreducible(d, rest);
      }
    } else {
      PrependIrreducible(c, t);
    }
  }

  lemma PrependIrreducible(c: char, t: string)
    requires Irreducible(t) && !RedexAt([c] + t, 0)
    ensures Irreducible([c] + t)
  {
    var s := [c] + t;
    forall i: nat | i < |s| ensures !RedexAt(s, i) {
      if i > 0 {
        assert RedexAt(s, i) ==> RedexAt(t, i - 1);
      }
    }
  }

  lemma {:induction false} PushAllIrreducible(u: string, t: string)
    requires Irreducible(t)
    ensures Irreducible(PushAll(u, t))
    decreases |u|
  {
    if u != "" {
      PushAllIrreducible(u[1..], t);
      PushIrreducible(u[0], PushAll(u[1..], t));
    }
  }

  /** Contracting any redex anywhere leaves the normal form alone. */
  lemma ContractKeepsNormalForm(s: string, i: nat)
    requires RedexAt(s, i)
    ensures NormalForm(Contract(s, i)) == NormalForm(s)
    ensures |Contract(s, i)| == |s| - 2
  {
    var u, v := s[..i], s[i + 3..];
    var d := Decoded(s[i + 2]).value;
    var redex := s[i..i + 3];
    assert s == u + (redex + v) && Contract(s, i) == u + ([d] + v);
    PushAllConcat(u, redex + v, "");
    PushAllConcat(u, [d] + v, "");
    PushAllConcat(redex, v, "");
    PushAllConcat([d], v, "");
    RedexPushes(s[i + 2], NormalForm(v));
    assert redex == ['%', '2', s[i + 2]];
  }

  lemma RedexPushes(digit: char, t: string)
    requires Decoded(digit).Some?
    ensures PushAll(['%', '2', digit], t) == PushAll([Decoded(digit).value], t)
  {
    var d := Decoded(digit).value;
    assert ['%', '2', digit][1..] == ['2', digit] && ['2', digit][1..] == [digit] && [digit][1..] == "";
    assert PushAll([digit], t) == [digit] + t;
    assert PushAll(['2', digit], t) == ['2'] + ([digit] + t);
    var t2 := ['2'] + ([digit] + t);
    assert t2[2..] == t && t2[1] == digit;
    assert RedexAt(['%'] + t2, 0);
    assert [d][1..] == "" && PushAll([d], t) == Push(d, t);
  }

  lemma {:induction false} RewriteKeepsNormalForm(s: string, t: string, n: nat)
    requires RewritesIn(s, t, n)
    ensures NormalForm(t) == NormalForm(s)
    ensures |t| == |s| - 2 * n
    decreases n
  {
    if n > 0 {
      var i: nat :| RedexAt(s, i) && RewritesIn(Contract(s, i), t, n - 1);
      ContractKeepsNormalForm(s, i);
      RewriteKeepsNormalForm(Contract(s, i), t, n - 1);
    }
  }

  lemma {:induction false} IrreducibleIsNormal(s: string)
    requires Irreducible(s)
    ensures NormalForm(s) == s
    decreases |s|
  {
    if s != "" {
      var rest := s[1..];
      assert forall i: nat :: i < |rest| ==> (RedexAt(rest, i) <==> RedexAt(s, i + 1));
      IrreducibleIsNormal(rest);
      assert [s[0]] + rest == s;
      assert !RedexAt(s, 0);
    }
  }

  /** Every string rewrites to its normal form. */
  lemma {:induction false} ReachesNormalForm(s: string)
    ensures RewritesTo(s, NormalForm(s))
    decreases |s|
  {
    if i: nat :| i < |s| && RedexAt(s, i) {
      ContractKeepsNormalForm(s, i);
      ReachesNormalForm(Contract(s, i));
      var n: nat :| RewritesIn(Contract(s, i), NormalForm(s), n);
      assert RewritesIn(s, NormalForm(s), n + 1);
    } else {
      IrreducibleIsNormal(s);
      assert RewritesIn(s, s, 0);
    }
  }

  /** Unique normal form: whatever order the contractions are done in, the only irreducible string
      that can be reached from `s` is `NormalForm(s)`, and it is reached. */
  lemma UniqueNormalForm(s: string, t: string)
    ensures RewritesTo(s, t) && Irreducible(t) <==> t == NormalForm(s)
  {
    if RewritesTo(s, t) && Irreducible(t) {
      var n: nat :| RewritesIn(s, t, n);
      RewriteKeepsNormalForm(s, t, n);
      IrreducibleIsNormal(t);
    }
    if t == NormalForm(s) {
      ReachesNormalForm(s);
      PushAllIrreducible(s, "");
    }
  }

  /** Confluence: two strings reached from the same one can be rewritten to a common string. */
  lemma Confluence(s: string, a: string, b: string)
    requires RewritesTo(s, a) && RewritesTo(s, b)
    ensures exists c :: RewritesTo(a, c) && RewritesTo(b, c)
  {
    var n: nat :| RewritesIn(s, a, n);
    var m: nat :| RewritesIn(s, b, m);
    RewriteKeepsNormalForm(s, a, n);
    RewriteKeepsNormalForm(s, b, m);
    ReachesNormalForm(a);
    ReachesNormalForm(b);
  }

  // ----- the decode loop -----

  /** `str::replace`: every non-overlapping occurrence of `pattern`, left to right. */
  function Replace(s: string, pattern: string, into: string): string
    requires pattern != ""
    decreases |s|
  {
    if s == "" then ""
    else if pattern <= s then into + Replace(s[|pattern|..], pattern, into)
    else [s[0]] + Replace(s[1..], pattern, into)
  }

  /** One substitution pass keeps the normal form; it changes the string only by shortening it, and
      leaves it alone only when the pattern does not occur. */
  lemma {:induction false} ReplacePass(s: string, digit: char)
    requires Decoded(digit).Some?
    ensures var r := Replace(s, ['%', '2', digit], [Decoded(digit).value]);
            && NormalForm(r) == NormalForm(s)
            && |r| <= |s|
            && (r == s <==> |r| == |s|)
            && (r == s <==> forall i: nat :: RedexAt(s, i) ==> s[i + 2] != digit)
    decreases |s|
  {
    var pattern, d := ['%', '2', digit], Decoded(digit).value;
    if s == "" {
    } else if pattern <= s {
      var rest := s[3..];
      ReplacePass(rest, digit);
      assert s == pattern + rest;
      PushAllConcat(pattern, rest, "");
      PushAllConcat([d], Replace(rest, pattern, [d]), "");
      RedexPushes(digit, NormalForm(rest));
      assert RedexAt(s, 0) && s[2] == digit;
    } else {
      var rest := s[1..];
      ReplacePass(rest, digit);
      var r' := Replace(rest, pattern, [d]);
      assert ([s[0]] + r')[1..] == r';
      assert s == [s[0]] + rest;
      forall i: nat
        ensures (RedexAt(s, i) && s[i + 2] == digit) <==> i > 0 && RedexAt(rest, i - 1) && rest[i + 1] == digit
      {
        assert RedexAt(s, 0) && s[2] == digit ==> pattern <= s;
      }
      assert (forall i: nat :: RedexAt(s, i) ==> s[i + 2] != digit) <==>
             (forall i: nat :: RedexAt(rest, i) ==> rest[i + 2] != digit) by {
        if i: nat :| RedexAt(rest, i) && rest[i + 2] == digit {
          assert RedexAt(s, i + 1) && s[i + 1 + 2] == digit;
        }
      }
    }
  }

  /** The body of the decode loop: `%25`, then `%2e`, then `%2f`. */
  function DecodeOnce(s: string): string {
    Replace(Replace(Replace(s, "%25", "%"), "%2e", "."), "%2f", "/")
  }

  lemma DecodeOnceStep(s: string)
    ensures NormalForm(DecodeOnce(s)) == NormalForm(s)
    ensures DecodeOnce(s) != s ==> |DecodeOnce(s)| < |s|
    ensures DecodeOnce(s) == s <==> Irreducible(s)
  {
    var a := Replace(s, "%25", "%");
    var b := Replace(a, "%2e", ".");
    ReplacePass(s, '5');
    ReplacePass(a, 'e');
    ReplacePass(b, 'f');
    if Irreducible(s) {
      assert forall i: nat :: !RedexAt(s, i);
    } else {
      var i: nat :| i < |s| && RedexAt(s, i);
      assert s[i + 2] == '5' || s[i + 2] == 'e' || s[i + 2] == 'f';
    }
  }

  // ----- segments -----

  /** `split('/')`. */
  function Split(s: string): (segments: seq<string>)
    ensures |segments| >= 1
    decreases |s|
  {
    if s == "" then [""]
    else
      var rest := Split(s[1..]);
      if s[0] == '/' then [""] + rest else [[s[0]] + rest[0]] + rest[1..]
  }

  /** The inverse of `Split`: the segments with slashes between them. */
  function Join(segments: seq<string>): string
    requires |segments| >= 1
  {
    if |segments| == 1 then segments[0] else segments[0] + "/" + Join(segments[1..])
  }

  lemma {:induction false} JoinSplit(s: string)
    ensures Join(Split(s)) == s
    decreases |s|
  {
    if s != "" {
      JoinSplit(s[1..]);
      var rest := Split(s[1..]);
      if s[0] == '/' {
        assert ([""] + rest)[1..] == rest;
        assert "" + "/" + s[1..] == s;
      } else {
        JoinFirst(s[0], rest);
        assert [s[0]] + s[1..] == s;
      }
    }
  }

  lemma ConcatAssociates(c: char, a: string, b: string)
    ensures ([c] + a) + "/" + b == [c] + (a + "/" + b)
  {
  }

  lemma JoinFirst(c: char, segments: seq<string>)
    requires |segments| >= 1
    ensures Join([[c] + segments[0]] + segments[1..]) == [c] + Join(segments)
  {
    var first, rest := [c] + segments[0], segments[1..];
    assert ([first] + rest)[1..] == rest;
    if rest == [] {
      assert Join([first] + rest) == first && Join(segments) == segments[0];
    } else {
      assert Join([first] + rest) == first + "/" + Join(rest);
      assert Join(segments) == segments[0] + "/" + Join(rest);
      ConcatAssociates(c, segments[0], Join(rest));
    }
  }

  lemma {:induction false} JoinConcat(a: seq<string>, b: seq<string>)
    requires |a| >= 1 && |b| >= 1
    ensures Join(a + b) == Join(a) + "/" + Join(b)
  {
    assert (a + b)[1..] == a[1..] + b;
    if |a| > 1 {
      JoinConcat(a[1..], b);
      assert a[0] + "/" + (Join(a[1..]) + "/" + Join(b)) == (a[0] + "/" + Join(a[1..])) + "/" + Join(b);
    } else {
      assert a[1..] + b == b;
    }
  }

  /** Some segment of `s` is exactly `..`. */
  predicate HasDotDot(s: string) {
    ".." in Split(s)
  }

  lemma SplitStep(u: string, more: seq<string>)
    requires u != ""
    ensures var rest := Split(u[1..]);
            Split(u) + more ==
              if u[0] == '/' then [""] + (rest + more) else [[u[0]] + (rest + more)[0]] + (rest + more)[1..]
  {
  }

  lemma {:induction false} SplitAtSlash(u: string, v: string)
    ensures Split(u + "/" + v) == Split(u) + Split(v)
    decreases |u|
  {
    var s := u + "/" + v;
    if u == "" {
      assert s == "/" + v && s[1..] == v;
    } else {
      SplitAtSlash(u[1..], v);
      assert s[1..] == u[1..] + "/" + v;
      SplitStep(u, Split(v));
    }
  }

  /** What the segment search means on the characters: two dots bounded on each side by a slash or
      by an end of the string. */
  ghost predicate DotDotAt(s: string, i: nat) {
    && i + 2 <= |s| && s[i] == '.' && s[i + 1] == '.'
    && (i == 0 || s[i - 1] == '/')
    && (i + 2 == |s| || s[i + 2] == '/')
  }

  lemma {:induction false} SlashFreeSplit(s: string)
    requires '/' !in s
    ensures Split(s) == [s]
    decreases |s|
  {
    if s != "" {
      SlashFreeSplit(s[1..]);
      assert [s[0]] + s[1..] == s;
    }
  }

  ghost predicate DotDotSomewhere(s: string) {
    exists i: nat :: DotDotAt(s, i)
  }

  lemma DotDotSplits(s: string, k: nat)
    requires k < |s| && s[k] == '/'
    ensures DotDotSomewhere(s) <==> DotDotSomewhere(s[..k]) || DotDotSomewhere(s[k + 1..])
  {
    var u, v := s[..k], s[k + 1..];
    if i: nat :| DotDotAt(s, i) {
      assert if i < k then DotDotAt(u, i) else DotDotAt(v, i - k - 1);
    }
    if i: nat :| DotDotAt(u, i) {
      assert DotDotAt(s, i);
    }
    if i: nat :| DotDotAt(v, i) {
      assert DotDotAt(s, i + k + 1);
    }
  }

  lemma {:induction false} HasDotDotMeaning(s: string)
    ensures HasDotDot(s) <==> DotDotSomewhere(s)
    decreases |s|
  {
    if k :| 0 <= k < |s| && s[k] == '/' {
      var u, v := s[..k], s[k + 1..];
      assert s == u + "/" + v;
      SplitAtSlash(u, v);
      HasDotDotMeaning(u);
      HasDotDotMeaning(v);
      DotDotSplits(s, k);
    } else {
      SlashFreeSplit(s);
      if i: nat :| DotDotAt(s, i) {
        assert s == "..";
      }
      if s == ".." {
        assert DotDotAt(s, 0);
      }
    }
  }

  // ----- the check -----

  /** The verdict: the fully decoded, lower-cased path has a `..` segment. */
  predicate Traversal(path: string) {
    HasDotDot(NormalForm(Lower(path)))
  }

  /** `path_contains_traversal`. The loop ends because a pass that changes the string shortens it,
      and it ends in the normal form. */
  method PathContainsTraversal(path: string) returns (found: bool)
    ensures found == Traversal(path)
  {
    var p := Lower(path);
    while true
      invariant NormalForm(p) == NormalForm(Lower(path))
      decreases |p|
    {
      DecodeOnceStep(p);
      var decoded := DecodeOnce(p);
      if decoded == p {
        IrreducibleIsNormal(p);
        found := ".." in Split(p);
        return;
      }
      p := decoded;
    }
  }

  /** The verdict on the characters of the one irreducible string the path decodes to. */
  lemma TraversalMeaning(path: string, decoded: string)
    requires RewritesTo(Lower(path), decoded) && Irreducible(decoded)
    ensures Traversal(path) <==> DotDotSomewhere(decoded)
  {
    UniqueNormalForm(Lower(path), decoded);
    HasDotDotMeaning(decoded);
  }

  // ----- encodings cannot hide anything -----

  /** `t` is `s` with one `%`, `.` or `/` percent-encoded, in either hex case. */
  ghost predicate EncodesOne(s: string, t: string) {
    exists i: nat, digit: char :: EncodesAt(s, t, i, digit)
  }

  predicate EncodesAt(s: string, t: string, i: nat, digit: char) {
    && i < |s| && HexDigitOf(s[i], digit)
    && t == s[..i] + ['%', '2', digit] + s[i + 1..]
  }

  /** The second hex digit of the character's code, in either case. */
  predicate HexDigitOf(c: char, digit: char) {
    || (c == '%' && digit == '5')
    || (c == '.' && (digit == 'e' || digit == 'E'))
    || (c == '/' && (digit == 'f' || digit == 'F'))
  }

  /** A sequence of paths, each the previous one with one more character encoded. */
  ghost predicate EncodingChain(chain: seq<string>) {
    |chain| > 0 && forall k :: 0 < k < |chain| ==> EncodesOne(chain[k - 1], chain[k])
  }

  lemma EncodingKeepsNormalForm(s: string, t: string)
    requires EncodesOne(s, t)
    ensures NormalForm(Lower(t)) == NormalForm(Lower(s))
  {
    hide NormalForm, Lower, LowerChar, Decoded, HexDigitOf;
    var i: nat, digit: char :| EncodesAt(s, t, i, digit);
    LowerTriple(s[i], digit);
    var a, b := s[..i], s[i + 1..];
    var triple := ['%', '2', digit];
    assert t == a + (triple + b) && s == a + ([s[i]] + b);
    LowerAround(a, triple, b);
    LowerAround(a, [s[i]], b);
    ContractBetween(Lower(a), LowerChar(digit), Lower(b));
  }

  lemma LowerTriple(c: char, digit: char)
    requires HexDigitOf(c, digit)
    ensures Decoded(LowerChar(digit)) == Some(c)
    ensures Lower(['%', '2', digit]) == ['%', '2', LowerChar(digit)] && Lower([c]) == [c]
  {
    assert LowerChar('E') == 'e' && LowerChar('F') == 'f';
  }

  lemma ContractBetween(a: string, digit: char, b: string)
    requires Decoded(digit).Some?
    ensures NormalForm(a + (['%', '2', digit] + b)) == NormalForm(a + ([Decoded(digit).value] + b))
  {
    hide NormalForm;
    var s := a + (['%', '2', digit] + b);
    assert RedexAt(s, |a|) && s[..|a|] == a && s[|a| + 3..] == b;
    assert Contract(s, |a|) == a + ([Decoded(digit).value] + b);
    ContractKeepsNormalForm(s, |a|);
  }

  /** Encoding any characters any number of times, in any order and hex case, never changes the
      verdict, and neither does the case of the letters. */
  lemma {:induction false} EncodingNeverHides(chain: seq<string>, path: string)
    requires EncodingChain(chain) && Lower(chain[|chain| - 1]) == Lower(path)
    ensures Traversal(path) == Traversal(chain[0])
    decreases |chain|
  {
    if |chain| > 1 {
      var last := |chain| - 1;
      EncodingKeepsNormalForm(chain[last - 1], chain[last]);
      EncodingNeverHides(chain[..last], chain[last - 1]);
    }
  }

  // ----- a slash is a barrier for decoding -----

  lemma {:induction false} PushBeforeSlash(c: char, a: string, t: string)
    ensures Push(c, a + "/" + t) == Push(c, a) + "/" + t
    decreases |a|
  {
    var s := a + "/" + t;
    assert RedexAt([c] + s, 0) <==> RedexAt([c] + a, 0);
    if RedexAt([c] + a, 0) {
      assert s[2..] == a[2..] + "/" + t;
      PushBeforeSlash('%', a[2..], t);
    } else {
      assert [c] + s == [c] + a + "/" + t;
    }
  }

  lemma {:induction false} PushAllBeforeSlash(u: string, t: string)
    ensures PushAll(u, "/" + t) == PushAll(u, "") + "/" + t
    decreases |u|
  {
    if u == "" {
      assert "/" + t == "" + "/" + t;
    } else {
      PushAllBeforeSlash(u[1..], t);
      PushBeforeSlash(u[0], PushAll(u[1..], ""), t);
    }
  }

  /** No redex spans a slash, so decoding works on each side of it separately. */
  lemma SlashIsBarrier(u: string, v: string)
    ensures NormalForm(u + "/" + v) == NormalForm(u) + "/" + NormalForm(v)
  {
    assert u + "/" + v == u + ("/" + v);
    PushAllConcat(u, "/" + v, "");
    PushAllConcat("/", v, "");
    var t := NormalForm(v);
    assert PushAll("/", t) == "/" + t by { assert "/"[1..] == ""; }
    PushAllBeforeSlash(u, t);
  }

  /** So the verdict on a path splits at any slash written in it. */
  lemma TraversalSplits(u: string, v: string)
    ensures Traversal(u + "/" + v) <==> Traversal(u) || Traversal(v)
  {
    LowerConcat(u + "/", v);
    LowerConcat(u, "/");
    assert Lower("/") == "/";
    SlashIsBarrier(Lower(u), Lower(v));
    SplitAtSlash(NormalForm(Lower(u)), NormalForm(Lower(v)));
  }

  // ----- the safe-path guard -----

  predicate AsciiControl(c: char) {
    c < ' ' || c == '\U{007F}'
  }

  /** `path_is_safe`. */
  predicate PathIsSafe(path: string) {
    && "/" <= path
    && forall i :: 0 <= i < |path| ==> !AsciiControl(path[i]) && path[i] != ' ' && path[i] != '\\'
  }

  /** `query_is_safe`. */
  predicate QueryIsSafe(query: string) {
    forall i :: 0 <= i < |query| ==> !AsciiControl(query[i]) && query[i] != ' '
  }

  /** The guard in character codes: a leading slash, and nothing up to the space (32), no backslash (92)
      and no delete (127). */
  lemma SafePathCharacters(path: string)
    ensures PathIsSafe(path) <==>
            && path != "" && path[0] as int == 47
            && forall i :: 0 <= i < |path| ==> 32 < path[i] as int && path[i] as int != 92 && path[i] as int != 127
  {
    assert "/" <= path <==> path != "" && path[0] == '/';
  }

  lemma SafeQueryCharacters(query: string)
    ensures QueryIsSafe(query) <==> forall i :: 0 <= i < |query| ==> 32 < query[i] as int && query[i] as int != 127
  {
  }
}
