/** String searching, trimming, counting and joining (app/sources/StringHelper.cpp and the
    std::string members the rest of the program relies on). Where the program gets
    `npos`, these functions give the length of the string. */
module StringHelper {

  datatype Option<+T> = None | Some(value: T)

  datatype Result<+T, +E> = Ok(value: T) | Err(error: E)

  /** Position of the first `c` at or after `from`, or |s|. */
  function Find(s: string, c: char, from: nat): (p: nat)
    requires from <= |s|
    ensures from <= p <= |s|
    ensures forall i :: from <= i < p ==> s[i] != c
    ensures p < |s| ==> s[p] == c
    decreases |s| - from
  {
    if from == |s| || s[from] == c then from else Find(s, c, from + 1)
  }

  predicate MatchesAt(s: string, word: string, i: nat) {
    i + |word| <= |s| && s[i..i + |word|] == word
  }

  /** Position of the first occurrence of `word` at or after `from`, or None. */
  function FindWord(s: string, word: string, from: nat): (p: Option<nat>)
    requires from <= |s|
    ensures p.None? ==> forall i :: from <= i <= |s| ==> !MatchesAt(s, word, i)
    ensures p.Some? ==> from <= p.value <= |s| && MatchesAt(s, word, p.value)
    ensures p.Some? ==> forall i :: from <= i < p.value ==> !MatchesAt(s, word, i)
    decreases |s| - from
  {
    if MatchesAt(s, word, from) then Some(from)
    else if from == |s| then None
    else FindWord(s, word, from + 1)
  }

  predicate AllSpaces(s: string) {
    forall i :: 0 <= i < |s| ==> s[i] == ' '
  }

  function LeadingSpaces(s: string): (n: nat)
    ensures n <= |s| && forall i :: 0 <= i < n ==> s[i] == ' '
    ensures n < |s| ==> s[n] != ' '
  {
    if s == [] || s[0] != ' ' then 0 else 1 + LeadingSpaces(s[1..])
  }

  /** One past the last character that is not a space. */
  function TrailingEnd(s: string): (n: nat)
    ensures n <= |s| && forall i :: n <= i < |s| ==> s[i] == ' '
    ensures n > 0 ==> s[n - 1] != ' '
  {
    if s == [] || s[|s| - 1] != ' ' then |s| else TrailingEnd(s[..|s| - 1])
  }

  /** Neither end is a space; the empty string qualifies. */
  predicate Trimmed(s: string) {
    s == [] || (s[0] != ' ' && s[|s| - 1] != ' ')
  }

  /** Removes the spaces at both ends, except that a string made of spaces comes back
      unchanged. */
  function TrimString(s: string): (r: string)
    ensures AllSpaces(s) ==> r == s
    ensures !AllSpaces(s) ==> r != [] && Trimmed(r)
    ensures exists a, b :: 0 <= a <= b <= |s| && r == s[a..b] && AllSpaces(s[..a]) && AllSpaces(s[b..])
  {
    var first := LeadingSpaces(s);
    if first == |s| then
      assert s == s[0..|s|] && AllSpaces(s[..0]) && AllSpaces(s[|s|..]);
      s
    else
      var last := TrailingEnd(s);
      assert AllSpaces(s[..first]) && AllSpaces(s[last..]);
      s[first..last]
  }

  lemma TrimIsIdentity(s: string)
    requires Trimmed(s)
    ensures TrimString(s) == s
  {
    if s != [] {
      assert LeadingSpaces(s) == 0 && TrailingEnd(s) == |s|;
    }
  }

  /** Trimming text that got spaces at its ends gives the text back. */
  lemma TrimStripsPadding(left: string, s: string, right: string)
    requires AllSpaces(left) && AllSpaces(right) && Trimmed(s) && s != []
    ensures TrimString(left + s + right) == s
  {
    var t := left + s + right;
    var first, last := LeadingSpaces(t), TrailingEnd(t);
    assert t[|left|] == s[0] && t[|left| + |s| - 1] == s[|s| - 1];
    assert first == |left|;
    assert last == |left| + |s|;
    assert t[first..last] == s;
  }

  /** Counts by repeated searching; the result is the multiplicity of `c`. */
  method StringCount(s: string, c: char) returns (count: nat)
    ensures count == multiset(s)[c]
  {
    count := 0;
    var pos := 0;
    while pos < |s|
      invariant pos <= |s|
      invariant count == multiset(s[..pos])[c]
    {
      var next := Find(s, c, pos);
      CountSkips(s, c, pos, next);
      pos := next;
      if pos < |s| {
        assert s[..pos + 1] == s[..pos] + [s[pos]];
        pos := pos + 1;
        count := count + 1;
      }
    }
    assert s[..pos] == s;
  }

  lemma CountSkips(s: string, c: char, from: nat, to: nat)
    requires from <= to <= |s|
    requires forall i :: from <= i < to ==> s[i] != c
    ensures multiset(s[..to])[c] == multiset(s[..from])[c]
  {
    assert s[..to] == s[..from] + s[from..to];
    assert c !in s[from..to];
  }

  /** The parts separated by `sep`. */
  function Join(parts: seq<string>, sep: string): string {
    if |parts| == 0 then ""
    else if |parts| == 1 then parts[0]
    else parts[0] + sep + Join(parts[1..], sep)
  }

  lemma Regroup<T>(a: seq<T>, b: seq<T>, c: seq<T>)
    ensures (a + b) + c == a + (b + c)
  {
  }

  lemma RegroupPairs<T>(a: seq<T>, b: seq<T>, c: seq<T>, d: seq<T>)
    ensures (a + b) + (c + d) == a + (b + c + d)
  {
  }

  lemma RegroupFive(a: string, b: string, c: string, d: string, e: string)
    ensures (a + b + c) + d + e == a + b + (c + d + e)
  {
  }

  lemma {:induction false} JoinConcat(xs: seq<string>, ys: seq<string>, sep: string)
    ensures Join(xs + ys, sep) ==
            if xs == [] then Join(ys, sep) else if ys == [] then Join(xs, sep) else Join(xs, sep) + sep + Join(ys, sep)
  {
    if |xs| == 0 {
      assert xs + ys == ys;
    } else if |ys| == 0 {
      assert xs + ys == xs;
    } else {
      assert (xs + ys)[1..] == xs[1..] + ys && (xs + ys)[0] == xs[0];
      JoinConcat(xs[1..], ys, sep);
      if |xs| > 1 {
        RegroupFive(xs[0], sep, Join(xs[1..], sep), sep, Join(ys, sep));
      }
    }
  }

  /** The pieces one after the other. */
  function Flatten(pieces: seq<string>): string {
    if pieces == [] then "" else pieces[0] + Flatten(pieces[1..])
  }

  lemma {:induction false} FlattenConcat(a: seq<string>, b: seq<string>)
    ensures Flatten(a + b) == Flatten(a) + Flatten(b)
  {
    if a == [] {
      assert a + b == b;
    } else {
      assert (a + b)[1..] == a[1..] + b;
      FlattenConcat(a[1..], b);
      Regroup(a[0], Flatten(a[1..]), Flatten(b));
    }
  }

  lemma FlattenAppend(pieces: seq<string>, last: string)
    ensures Flatten(pieces + [last]) == Flatten(pieces) + last
  {
    FlattenConcat(pieces, [last]);
    assert Flatten([last]) == last + "" == last;
  }
}
