/** Character and string primitives the scoring engine relies on: ASCII
    lower-casing (`str.lower`), the regular-expression classes `\w` and `\s`,
    substring search (`in`), prefixes (`startswith`), the suffix slice
    `s[-n:]`, the word boundary `\b`, and the fallback tokenizer
    `re.findall(r'\b\w+\b', ...)`. */
module Text {

  /** `\w` restricted to ASCII: letters, digits and the underscore. */
  predicate IsWordChar(c: char) {
    ('a' <= c <= 'z') || ('A' <= c <= 'Z') || ('0' <= c <= '9') || c == '_'
  }

  /** `\s` restricted to ASCII: space, \t \n \v \f \r, and the separators
      \x1c..\x1f, which Python also treats as whitespace. */
  predicate IsSpace(c: char) {
    c == ' ' || ('\t' <= c <= '\r') || ('\U{1C}' <= c <= '\U{1F}')
  }

  predicate IsUpper(c: char) {
    'A' <= c <= 'Z'
  }

  function LowerChar(c: char): (d: char)
    ensures !IsUpper(d)
    ensures IsWordChar(d) == IsWordChar(c)
    ensures IsSpace(d) == IsSpace(c)
    ensures !IsUpper(c) ==> d == c
  {
    if IsUpper(c) then (c as int - 'A' as int + 'a' as int) as char else c
  }

  /** `str.lower()` on ASCII text. */
  function Lower(s: string): (r: string)
    ensures |r| == |s|
    ensures forall i :: 0 <= i < |s| ==> r[i] == LowerChar(s[i])
  {
    seq(|s|, i requires 0 <= i < |s| => LowerChar(s[i]))
  }

  /** `p` occurs in `s` starting at index `k`. */
  predicate OccursAt(s: string, p: string, k: int) {
    0 <= k && k + |p| <= |s| && s[k..k + |p|] == p
  }

  /** Python's `p in s`. */
  predicate Contains(s: string, p: string) {
    exists k :: 0 <= k <= |s| - |p| && OccursAt(s, p, k)
  }

  /** Python's `s.startswith(p)`. */
  predicate StartsWith(s: string, p: string) {
    |p| <= |s| && s[..|p|] == p
  }

  /** Python's `s[-n:]` for a positive `n`: the last `n` characters, or the
      whole string when it is shorter. */
  function Tail(s: string, n: nat): (r: string)
    requires n > 0
    ensures |r| == if |s| <= n then |s| else n
    ensures r == s[|s| - |r|..]
  {
    if |s| <= n then s else s[|s| - n..]
  }

  /** A substring of the last `n` characters is exactly an occurrence in the
      whole string that starts no earlier than `n` characters before its end. */
  lemma ContainsTail(s: string, n: nat, p: string)
    requires n > 0
    ensures Contains(Tail(s, n), p) <==>
            exists k :: |s| - n <= k && OccursAt(s, p, k)
  {
    if Contains(Tail(s, n), p) {
      TailOccurrence(s, n, p);
    }
    if exists k :: |s| - n <= k && OccursAt(s, p, k) {
      var k :| |s| - n <= k && OccursAt(s, p, k);
      OccurrenceInTail(s, n, p, k);
    }
  }

  lemma TailOccurrence(s: string, n: nat, p: string)
    requires n > 0 && Contains(Tail(s, n), p)
    ensures exists k :: |s| - n <= k && OccursAt(s, p, k)
  {
    var t := Tail(s, n);
    var off := |s| - |t|;
    var j :| 0 <= j <= |t| - |p| && OccursAt(t, p, j);
    assert s[off + j..off + j + |p|] == t[j..j + |p|];
    assert OccursAt(s, p, off + j);
  }

  lemma OccurrenceInTail(s: string, n: nat, p: string, k: int)
    requires n > 0 && |s| - n <= k && OccursAt(s, p, k)
    ensures Contains(Tail(s, n), p)
  {
    var t := Tail(s, n);
    var off := |s| - |t|;
    assert off <= k;
    assert t[k - off..k - off + |p|] == s[k..k + |p|];
    assert OccursAt(t, p, k - off);
  }

  /** The string with its leading `\s` characters removed. */
  function TrimLeft(s: string): (r: string)
    ensures |r| <= |s| && r == s[|s| - |r|..]
    ensures forall j :: 0 <= j < |s| - |r| ==> IsSpace(s[j])
    ensures r == [] || !IsSpace(r[0])
  {
    if s != [] && IsSpace(s[0]) then TrimLeft(s[1..]) else s
  }

  /** `\b` at position `k`: exactly one of the characters on either side of
      `k` is a word character. */
  predicate BoundaryAt(s: string, k: int)
    requires 0 <= k <= |s|
  {
    (0 < k && IsWordChar(s[k - 1])) != (k < |s| && IsWordChar(s[k]))
  }

  /** The pattern `\b p \b` matches at `k`. */
  predicate WholeWordAt(s: string, p: string, k: int) {
    OccursAt(s, p, k) && BoundaryAt(s, k) && BoundaryAt(s, k + |p|)
  }

  /** Length of the run of word characters at the start of `s`. */
  function WordRun(s: string): (n: nat)
    ensures n <= |s|
    ensures forall j :: 0 <= j < n ==> IsWordChar(s[j])
    ensures n == |s| || !IsWordChar(s[n])
  {
    if s == [] || !IsWordChar(s[0]) then 0 else 1 + WordRun(s[1..])
  }

  /** `re.findall(r'\b\w+\b', s)`: the maximal runs of word characters, left
      to right. */
  function Words(s: string): (ws: seq<string>)
    ensures forall w :: w in ws ==> |w| > 0 && forall j :: 0 <= j < |w| ==> IsWordChar(w[j])
    decreases |s|
  {
    if s == [] then []
    else if !IsWordChar(s[0]) then Words(s[1..])
    else
      var n := WordRun(s);
      [s[..n]] + Words(s[n..])
  }

  /** The fallback tokenizer finds no word exactly when the text has no word
      character. */
  lemma {:induction false} WordsEmptyIff(s: string)
    ensures Words(s) == [] <==> forall j :: 0 <= j < |s| ==> !IsWordChar(s[j])
    decreases |s|
  {
    if s != [] && !IsWordChar(s[0]) {
      WordsEmptyIff(s[1..]);
      assert forall j :: 1 <= j < |s| ==> s[j] == s[1..][j - 1];
    }
  }

  /** One step of the tokenizer: a leading non-word character is skipped,
      and a leading run becomes the first token, followed by the tokens of
      the rest. */
  lemma WordsStep(s: string)
    requires s != []
    ensures !IsWordChar(s[0]) ==> Words(s) == Words(s[1..])
    ensures IsWordChar(s[0]) ==>
      var n := WordRun(s);
      && 0 < n
      && |Words(s)| == 1 + |Words(s[n..])|
      && Words(s)[0] == s[..n]
      && forall i :: 1 <= i < |Words(s)| ==> Words(s)[i] == Words(s[n..])[i - 1]
  {
  }

  /** `s[k..e]` is a match of `\b\w+\b`: a non-empty run of word characters
      with a word boundary at each end, that is, a maximal run. */
  predicate RunAt(s: string, k: int, e: int) {
    0 <= k < e <= |s| && (forall j :: k <= j < e ==> IsWordChar(s[j]))
    && BoundaryAt(s, k) && BoundaryAt(s, e)
  }

  /** `w` is the text of some maximal run of word characters of `s`. */
  ghost predicate IsRun(s: string, w: string) {
    exists k, e :: RunAt(s, k, e) && w == s[k..e]
  }

  /** Dropping the first `m` characters shifts the runs that start after
      them by `m`; a run at the start of the suffix is also a run of `s`
      when the dropped part ends in a non-word character. */
  lemma RunAtDrop(s: string, m: nat, k: int, e: int)
    requires 0 < m <= |s| && 0 <= k
    requires k == 0 ==> !IsWordChar(s[m - 1])
    ensures RunAt(s[m..], k, e) <==> RunAt(s, k + m, e + m)
  {
    var t := s[m..];
    if RunAt(t, k, e) {
      assert forall j :: k + m <= j < e + m ==> s[j] == t[j - m];
    }
    if RunAt(s, k + m, e + m) {
      assert forall j :: k <= j < e ==> t[j] == s[j + m];
    }
  }

  /** A run of a suffix that does not start at the suffix's first character,
      or does so after a non-word character, is the shifted run of `s`. */
  lemma RunShift(s: string, m: nat, k: int, e: int)
    requires 0 < m <= |s| && 0 <= k
    requires k == 0 ==> !IsWordChar(s[m - 1])
    requires RunAt(s[m..], k, e)
    ensures RunAt(s, k + m, e + m) && s[m..][k..e] == s[k + m..e + m]
  {
    RunAtDrop(s, m, k, e);
  }

  /** A run that starts inside the leading run `(0, n)` is that run. */
  lemma FirstRunIsToken(s: string, n: int, k: int, e: int)
    requires RunAt(s, 0, n) && RunAt(s, k, e) && k < n
    ensures k == 0 && e == n
  {
    assert BoundaryAt(s, k) && BoundaryAt(s, e) && BoundaryAt(s, n);
  }

  /** `r` holds `off` leading spans followed by the spans `sp` moved `m`
      characters to the right. */
  predicate Moved(r: seq<(int, int)>, sp: seq<(int, int)>, m: int, off: nat) {
    |r| == |sp| + off && forall i :: off <= i < |r| ==> r[i] == (sp[i - off].0 + m, sp[i - off].1 + m)
  }

  /** Every span moved `m` characters to the right. */
  function Shift(sp: seq<(int, int)>, m: int): (r: seq<(int, int)>)
    ensures Moved(r, sp, m, 0)
  {
    seq(|sp|, i requires 0 <= i < |sp| => (sp[i].0 + m, sp[i].1 + m))
  }

  /** The span `(0, n)` followed by the spans `sp` moved `n` to the right. */
  function Lead(n: int, sp: seq<(int, int)>): (r: seq<(int, int)>)
    ensures Moved(r, sp, n, 1) && r[0] == (0, n)
  {
    [(0, n)] + Shift(sp, n)
  }

  /** Token `i` of `ws` is the text of the maximal run `sp[i]`. */
  ghost predicate SpansAreRuns(s: string, ws: seq<string>, sp: seq<(int, int)>) {
    |sp| == |ws| && forall i :: 0 <= i < |sp| ==> RunAt(s, sp[i].0, sp[i].1) && ws[i] == s[sp[i].0..sp[i].1]
  }

  /** The spans come strictly left to right. */
  predicate Increasing(sp: seq<(int, int)>) {
    forall i :: 0 <= i < |sp| - 1 ==> sp[i].1 < sp[i + 1].0
  }

  /** Every maximal run of `s` is one of the spans. */
  ghost predicate CoversRuns(s: string, sp: seq<(int, int)>) {
    forall k, e :: RunAt(s, k, e) ==> (k, e) in sp
  }

  /** `ws` are the matches of `\b\w+\b` in `s`, found at the spans `sp`:
      token `i` is the text of the maximal run `sp[i]`, the runs come
      strictly left to right, and every maximal run of `s` is one of them. */
  ghost predicate TokensAt(s: string, ws: seq<string>, sp: seq<(int, int)>) {
    SpansAreRuns(s, ws, sp) && Increasing(sp) && CoversRuns(s, sp)
  }

  /** The spans at which the tokenizer finds its tokens. */
  lemma {:induction false} WordSpans(s: string) returns (sp: seq<(int, int)>)
    ensures TokensAt(s, Words(s), sp)
    decreases |s|
  {
    if s == [] {
      sp := [];
    } else if !IsWordChar(s[0]) {
      var rest := WordSpans(s[1..]);
      sp := Shift(rest, 1);
      assert Words(s) == Words(s[1..]);
      SkipRuns(s, Words(s), rest, sp);
      SkipCovers(s, rest, sp);
      assert Increasing(sp);
    } else {
      var n := WordRun(s);
      var rest := WordSpans(s[n..]);
      sp := Lead(n, rest);
      LeadRunAt(s);
      WordsStep(s);
      RestRuns(s, n, Words(s[n..]), rest);
      LeadRuns(s, n, Words(s[n..]), rest, Words(s), sp);
      LeadIncreasing(s, n, Words(s[n..]), rest, sp);
      LeadCovers(s, n, rest, sp);
    }
  }

  /** The leading run of word characters is a maximal run. */
  lemma LeadRunAt(s: string)
    requires s != [] && IsWordChar(s[0])
    ensures RunAt(s, 0, WordRun(s))
  {
    assert WordRun(s) == 1 + WordRun(s[1..]);
  }

  /** A leading non-word character moves every token span one to the right. */
  lemma SkipRuns(s: string, ws: seq<string>, sp: seq<(int, int)>, r: seq<(int, int)>)
    requires s != [] && !IsWordChar(s[0])
    requires SpansAreRuns(s[1..], ws, sp) && Moved(r, sp, 1, 0)
    ensures SpansAreRuns(s, ws, r)
  {
    forall i | 0 <= i < |r|
      ensures RunAt(s, r[i].0, r[i].1) && ws[i] == s[r[i].0..r[i].1]
    {
      RunShift(s, 1, sp[i].0, sp[i].1);
    }
  }

  lemma SkipCovers(s: string, sp: seq<(int, int)>, r: seq<(int, int)>)
    requires s != [] && !IsWordChar(s[0])
    requires CoversRuns(s[1..], sp) && Moved(r, sp, 1, 0)
    ensures CoversRuns(s, r)
  {
    forall k, e | RunAt(s, k, e)
      ensures (k, e) in r
    {
      assert IsWordChar(s[k]);
      RunAtDrop(s, 1, k - 1, e - 1);
      var i :| 0 <= i < |sp| && sp[i] == (k - 1, e - 1);
      assert r[i] == (k, e);
    }
  }

  /** A leading run `(0, n)` is the first token; the spans of the rest
      follow, moved `n` to the right. */
  lemma LeadRuns(s: string, n: nat, ws: seq<string>, sp: seq<(int, int)>, ws': seq<string>, r: seq<(int, int)>)
    requires RunAt(s, 0, n) && |ws| == |sp|
    requires forall i :: 0 <= i < |sp| ==>
      RunAt(s, sp[i].0 + n, sp[i].1 + n) && ws[i] == s[sp[i].0 + n..sp[i].1 + n]
    requires |ws'| == |ws| + 1 && ws'[0] == s[..n] && forall i :: 1 <= i < |ws'| ==> ws'[i] == ws[i - 1]
    requires Moved(r, sp, n, 1) && r[0] == (0, n)
    ensures SpansAreRuns(s, ws', r)
  {
    assert ws'[0] == s[0..n];
  }

  /** The spans of the rest, moved `n` to the right, are runs of `s` with
      the same text. */
  lemma RestRuns(s: string, n: nat, ws: seq<string>, sp: seq<(int, int)>)
    requires RunAt(s, 0, n) && SpansAreRuns(s[n..], ws, sp)
    ensures forall i :: 0 <= i < |sp| ==>
      RunAt(s, sp[i].0 + n, sp[i].1 + n) && ws[i] == s[sp[i].0 + n..sp[i].1 + n]
  {
    forall i | 0 <= i < |sp|
      ensures RunAt(s, sp[i].0 + n, sp[i].1 + n) && ws[i] == s[sp[i].0 + n..sp[i].1 + n]
    {
      RunAfterLead(s, n, sp[i].0, sp[i].1);
    }
  }

  /** A run after the leading run `(0, n)` does not start the rest, and is
      that run of `s` moved `n` to the right. */
  lemma RunAfterLead(s: string, n: nat, k: int, e: int)
    requires RunAt(s, 0, n)
    requires RunAt(s[n..], k, e)
    ensures 0 < k && RunAt(s, k + n, e + n) && s[n..][k..e] == s[k + n..e + n]
  {
    var t := s[n..];
    assert IsWordChar(t[k]) && IsWordChar(s[n - 1]) && BoundaryAt(s, n);
    assert |t| > 0 ==> t[0] == s[n];
    RunShift(s, n, k, e);
  }

  lemma LeadIncreasing(s: string, n: nat, ws: seq<string>, sp: seq<(int, int)>, r: seq<(int, int)>)
    requires RunAt(s, 0, n) && SpansAreRuns(s[n..], ws, sp) && Increasing(sp)
    requires Moved(r, sp, n, 1) && r[0] == (0, n)
    ensures Increasing(r)
  {
    if sp != [] {
      RunAfterLead(s, n, sp[0].0, sp[0].1);
    }
  }

  lemma LeadCovers(s: string, n: nat, sp: seq<(int, int)>, r: seq<(int, int)>)
    requires RunAt(s, 0, n) && CoversRuns(s[n..], sp)
    requires Moved(r, sp, n, 1) && r[0] == (0, n)
    ensures CoversRuns(s, r)
  {
    forall k, e | RunAt(s, k, e)
      ensures (k, e) in r
    {
      if k < n {
        FirstRunIsToken(s, n, k, e);
      } else {
        assert IsWordChar(s[k]) && IsWordChar(s[n - 1]);
        RunAtDrop(s, n, k - n, e - n);
        var i :| 0 <= i < |sp| && sp[i] == (k - n, e - n);
        assert r[i + 1] == (k, e);
      }
    }
  }

  /** The tokens are the maximal runs of word characters, left to right,
      each found once: the output is fixed, including its length and the
      places of repeated words. */
  lemma WordsInOrder(s: string)
    ensures exists sp :: TokensAt(s, Words(s), sp)
  {
    var sp := WordSpans(s);
  }

  /** `re.findall(r'\b\w+\b', s)` finds exactly the maximal runs of word
      characters: a string is a token exactly when it is such a run. */
  lemma WordsMeaning(s: string)
    ensures forall w :: w in Words(s) <==> IsRun(s, w)
  {
    var sp := WordSpans(s);
    forall w | w in Words(s)
      ensures IsRun(s, w)
    {
      var i :| 0 <= i < |Words(s)| && Words(s)[i] == w;
      assert RunAt(s, sp[i].0, sp[i].1);
    }
    forall w | IsRun(s, w)
      ensures w in Words(s)
    {
      var k, e :| RunAt(s, k, e) && w == s[k..e];
      var i :| 0 <= i < |sp| && sp[i] == (k, e);
      assert Words(s)[i] == w;
    }
  }

  /** The regular-expression fallback of the tokenizer: words of the
      lower-cased text. */
  function FallbackTokens(text: string): (ws: seq<string>)
    ensures forall w :: w in ws ==> |w| > 0 && forall j :: 0 <= j < |w| ==> IsWordChar(w[j]) && !IsUpper(w[j])
  {
    LowerWordsHaveNoUpper(Lower(text));
    Words(Lower(text))
  }

  lemma {:induction false} LowerWordsHaveNoUpper(s: string)
    requires forall j :: 0 <= j < |s| ==> !IsUpper(s[j])
    ensures forall w :: w in Words(s) ==> forall j :: 0 <= j < |w| ==> !IsUpper(w[j])
    decreases |s|
  {
    if s != [] {
      if !IsWordChar(s[0]) {
        LowerWordsHaveNoUpper(s[1..]);
      } else {
        var n := WordRun(s);
        LowerWordsHaveNoUpper(s[n..]);
      }
    }
  }
}
