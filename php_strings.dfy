/** The PHP string built-ins the PayUMoney gateway relies on: `strtolower`,
    `trim` with a character list, `explode` and `substr($s, 0, $n)`, stated
    on `seq<char>` with the byte-for-byte behaviour they have on ASCII input. */
module PhpStrings {

  /** The characters PHP's `strtolower` rewrites: ASCII 'A'..'Z'. */
  predicate IsUpper(c: char) {
    'A' <= c <= 'Z'
  }

  predicate HasNoUpper(s: string) {
    forall i :: 0 <= i < |s| ==> !IsUpper(s[i])
  }

  const HexDigits: set<char> := {'0', '1', '2', '3', '4', '5', '6', '7', '8', '9', 'a', 'b', 'c', 'd', 'e', 'f'}

  /** A lower-case hexadecimal string of exactly `n` characters, the form
      PHP's `hash()` returns a digest in. */
  predicate IsLowerHex(s: string, n: nat) {
    |s| == n && forall i :: 0 <= i < |s| ==> s[i] in HexDigits
  }

  function LowerChar(c: char): char {
    if IsUpper(c) then (c as int + 32) as char else c
  }

  /** `strtolower($s)`: ASCII upper-case letters become lower-case, every
      other character is kept, the length does not change. */
  function ToLower(s: string): (r: string)
    ensures |r| == |s|
    ensures HasNoUpper(r)
    ensures forall i :: 0 <= i < |s| && !IsUpper(s[i]) ==> r[i] == s[i]
    ensures forall i :: 0 <= i < |s| && IsUpper(s[i]) ==> r[i] as int == s[i] as int + 32
  {
    seq(|s|, i requires 0 <= i < |s| => LowerChar(s[i]))
  }

  /** Lower-casing is the identity on a string without upper-case letters,
      in particular on a lower-case hex digest. */
  lemma ToLowerKeepsLower(s: string)
    requires HasNoUpper(s)
    ensures ToLower(s) == s
  {
  }

  lemma ToLowerKeepsHex(s: string, n: nat)
    requires IsLowerHex(s, n)
    ensures ToLower(s) == s
  {
    forall i | 0 <= i < |s| ensures !IsUpper(s[i]) {
      assert s[i] in HexDigits;
    }
    ToLowerKeepsLower(s);
  }

  predicate AllIn(s: string, chars: set<char>) {
    forall i :: 0 <= i < |s| ==> s[i] in chars
  }

  /** Every character of `s` from position `lo` up to, not including, `hi`
      is one of `chars`. */
  predicate RunIn(s: string, lo: nat, hi: nat, chars: set<char>) {
    forall k :: lo <= k < hi && k < |s| ==> s[k] in chars
  }

  /** The length of the longest prefix made of characters of `chars`: what
      `ltrim($s, $chars)` drops. */
  function LeadingRun(s: string, chars: set<char>): (n: nat)
    ensures n <= |s| && RunIn(s, 0, n, chars)
    ensures n < |s| ==> s[n] !in chars
  {
    if s != [] && s[0] in chars then 1 + LeadingRun(s[1..], chars) else 0
  }

  /** Where the longest suffix made of characters of `chars` begins: what
      `rtrim($s, $chars)` keeps is everything before it. */
  function TrailingStart(s: string, chars: set<char>): (n: nat)
    ensures n <= |s| && RunIn(s, n, |s|, chars)
    ensures n > 0 ==> s[n - 1] !in chars
  {
    if s != [] && s[|s| - 1] in chars then TrailingStart(s[..|s| - 1], chars) else |s|
  }

  /** `trim($s, $chars)`: the leading run is dropped as `ltrim` does, then
      the trailing run as `rtrim` does. Every maximal leading and every
      maximal trailing run of characters of `chars` goes, not just one
      character at each end; what lies between is kept as it is. */
  function Trim(s: string, chars: set<char>): (r: string)
    ensures |r| <= |s|
    ensures r == [] || (r[0] !in chars && r[|r| - 1] !in chars)
    ensures var i := LeadingRun(s, chars);
      && i + |r| <= |s|
      && r == s[i..i + |r|]
      && RunIn(s, 0, i, chars)
      && RunIn(s, i + |r|, |s|, chars)
  {
    var i := LeadingRun(s, chars);
    var l := s[i..];
    var j := TrailingStart(l, chars);
    assert l[..j] == s[i..i + j];
    assert RunIn(s, i + j, |s|, chars) by {
      forall k | i + j <= k < |s| ensures s[k] in chars {
        assert s[k] == l[k - i];
      }
    }
    l[..j]
  }

  /** The trim is empty exactly when every character is one of `chars`. */
  lemma TrimEmptyIff(s: string, chars: set<char>)
    ensures Trim(s, chars) == [] <==> AllIn(s, chars)
  {
    if AllIn(s, chars) {
      LeadingRunAt(s, chars, |s|);
    }
  }

  /** The leading run ends where the first character outside `chars` is. */
  lemma LeadingRunAt(s: string, chars: set<char>, i: nat)
    requires i <= |s| && RunIn(s, 0, i, chars)
    requires i < |s| ==> s[i] !in chars
    ensures LeadingRun(s, chars) == i
  {
  }

  /** The trailing run starts after the last character outside `chars`. */
  lemma TrailingStartAt(s: string, chars: set<char>, j: nat)
    requires j <= |s| && RunIn(s, j, |s|, chars)
    requires 0 < j ==> s[j - 1] !in chars
    ensures TrailingStart(s, chars) == j
  {
  }

  /** Trim is fully determined by its boundaries: cutting `s` at any two
      points such that everything outside is in `chars` and the kept part
      neither starts nor ends with a character of `chars` gives exactly
      `Trim(s, chars)`; when the kept part is empty, all of `s` is in `chars`. */
  lemma TrimUnique(s: string, chars: set<char>, i: nat, j: nat)
    requires i <= j <= |s|
    requires RunIn(s, 0, i, chars) && RunIn(s, j, |s|, chars)
    requires i < j ==> s[i] !in chars && s[j - 1] !in chars
    ensures Trim(s, chars) == s[i..j]
  {
    if i < j {
      LeadingRunAt(s, chars, i);
      TrailingStartAt(s[i..], chars, j - i);
    } else {
      LeadingRunAt(s, chars, |s|);
    }
  }

  /** Appending a trimmed character does not change the trim. */
  lemma TrimIgnoresTrailing(s: string, c: char, chars: set<char>)
    requires c in chars
    ensures Trim(s + [c], chars) == Trim(s, chars)
  {
    var r := Trim(s, chars);
    var i := LeadingRun(s, chars);
    var t := s + [c];
    assert t[i..i + |r|] == r;
    assert RunIn(t, i + |r|, |t|, chars) by {
      forall k | i + |r| <= k < |t| ensures t[k] in chars {
        if k < |s| { assert t[k] == s[k]; }
      }
    }
    TrimUnique(t, chars, i, i + |r|);
  }

  /** Prepending a trimmed character does not change the trim. */
  lemma TrimIgnoresLeading(s: string, c: char, chars: set<char>)
    requires c in chars
    ensures Trim([c] + s, chars) == Trim(s, chars)
  {
    assert ([c] + s)[1..] == s;
    assert ([c] + s)[1 + LeadingRun(s, chars)..] == s[LeadingRun(s, chars)..];
  }

  /** `explode($sep, $s)`: the pieces of `s` between occurrences of `sep`;
      the empty string gives one empty piece. */
  function Explode(sep: char, s: string): (parts: seq<string>)
    ensures |parts| >= 1
  {
    if s == [] then [""]
    else
      var rest := Explode(sep, s[1..]);
      if s[0] == sep then [""] + rest
      else [[s[0]] + rest[0]] + rest[1..]
  }

  /** A string without the separator explodes to itself. */
  lemma {:induction false} ExplodeWithoutSeparator(sep: char, s: string)
    requires sep !in s
    ensures Explode(sep, s) == [s]
  {
    if s != [] {
      ExplodeWithoutSeparator(sep, s[1..]);
      assert [s[0]] + s[1..] == s;
    }
  }

  /** A separator-free piece followed by the separator becomes the first
      element of the explosion. */
  lemma {:induction false} ExplodePiece(sep: char, piece: string, rest: string)
    requires sep !in piece
    ensures Explode(sep, piece + [sep] + rest) == [piece] + Explode(sep, rest)
  {
    if piece == [] {
      assert piece + [sep] + rest == [sep] + rest;
    } else {
      var s := piece + [sep] + rest;
      assert s[1..] == piece[1..] + [sep] + rest;
      ExplodePiece(sep, piece[1..], rest);
      assert [piece[0]] + piece[1..] == piece;
    }
  }

  /** `substr($s, 0, $n)`: the first `n` characters, or all of `s` when it is shorter. */
  function Prefix(s: string, n: nat): (r: string)
    ensures |r| == if |s| < n then |s| else n
    ensures r <= s
  {
    if |s| <= n then s else s[..n]
  }
}
