/** The JavaScript string built-ins the application relies on (`trim`,
    `indexOf`, `includes`, `substring`, `split`, `Array.prototype.join`,
    `toLowerCase`, `.length` and number-to-string conversion), written with
    the semantics ECMAScript gives them. Strings are sequences of characters. */
module JsString {

  /** The code points ECMAScript classes as WhiteSpace or LineTerminator:
      exactly what `String.prototype.trim` strips from both ends. */
  predicate IsSpace(c: char) {
    || c == '\t' || c == '\n' || c == '\U{000B}' || c == '\U{000C}' || c == '\r'
    || c == ' ' || c == '\U{00A0}' || c == '\U{1680}'
    || ('\U{2000}' <= c <= '\U{200A}')
    || c == '\U{2028}' || c == '\U{2029}' || c == '\U{202F}' || c == '\U{205F}'
    || c == '\U{3000}' || c == '\U{FEFF}'
  }

  predicate AllSpace(s: string) {
    forall k :: 0 <= k < |s| ==> IsSpace(s[k])
  }

  /** A string that `trim` leaves unchanged: empty, or neither end is a space. */
  predicate IsTrimmed(s: string) {
    s == [] || (!IsSpace(s[0]) && !IsSpace(s[|s| - 1]))
  }

  /** Number of leading spaces. */
  function TrimStartIndex(s: string): (i: nat)
    ensures i <= |s|
    ensures forall k :: 0 <= k < i ==> IsSpace(s[k])
    ensures i < |s| ==> !IsSpace(s[i])
  {
    if |s| == 0 || !IsSpace(s[0]) then 0 else 1 + TrimStartIndex(s[1..])
  }

  /** Length of `s` without its trailing spaces. */
  function TrimEndIndex(s: string): (j: nat)
    ensures j <= |s|
    ensures forall k :: j <= k < |s| ==> IsSpace(s[k])
    ensures j > 0 ==> !IsSpace(s[j - 1])
  {
    if |s| == 0 || !IsSpace(s[|s| - 1]) then |s| else TrimEndIndex(s[..|s| - 1])
  }

  /** `s.trim()`. */
  function Trim(s: string): (r: string)
    ensures IsTrimmed(r)
    ensures |r| <= |s|
    ensures r == [] <==> AllSpace(s)
  {
    var i, j := TrimStartIndex(s), TrimEndIndex(s);
    if j <= i then "" else s[i..j]
  }

  /** `trim` removes only spaces from the two ends: the input is the result
      with a run of spaces before and after it. */
  lemma TrimIsSlice(s: string)
    ensures var r, i := Trim(s), TrimStartIndex(s);
      i + |r| <= |s| && r == s[i..i + |r|]
      && AllSpace(s[..i]) && AllSpace(s[i + |r|..])
  {
  }

  /** A trimmed string is a fixpoint of `trim`; in particular `trim` is idempotent. */
  lemma TrimFixpoint(s: string)
    requires IsTrimmed(s)
    ensures Trim(s) == s
  {
    if s != [] {
      assert TrimStartIndex(s) == 0;
      assert TrimEndIndex(s) == |s|;
    }
  }

  lemma TrimIdempotent(s: string)
    ensures Trim(Trim(s)) == Trim(s)
  {
    TrimFixpoint(Trim(s));
  }

  // ---------------------------------------------------------------------
  // Searching

  /** `p` occurs in `s` starting at index `i`. */
  predicate OccursAt(s: string, p: string, i: int) {
    0 <= i && i + |p| <= |s| && s[i..i + |p|] == p
  }

  function IndexFrom(s: string, p: string, k: nat): (r: int)
    requires k <= |s|
    decreases |s| - k
    ensures r == -1 || k <= r <= |s|
    ensures r >= 0 ==> OccursAt(s, p, r) && forall i :: k <= i < r ==> !OccursAt(s, p, i)
    ensures r == -1 ==> forall i :: k <= i <= |s| ==> !OccursAt(s, p, i)
  {
    if OccursAt(s, p, k) then k
    else if k + |p| >= |s| then -1
    else IndexFrom(s, p, k + 1)
  }

  /** `s.indexOf(p)`: the first index where `p` occurs, or -1 when it does not occur. */
  function IndexOf(s: string, p: string): (r: int)
    ensures -1 <= r <= |s|
    ensures r == -1 <==> forall i :: 0 <= i <= |s| ==> !OccursAt(s, p, i)
    ensures r >= 0 ==> OccursAt(s, p, r) && forall i :: 0 <= i < r ==> !OccursAt(s, p, i)
  {
    IndexFrom(s, p, 0)
  }

  /** `s.includes(p)`. */
  predicate Includes(s: string, p: string) {
    IndexOf(s, p) >= 0
  }

  /** Whether `p` occurs in `s` at `k` or later, tried position by position
      as `IndexFrom` tries them. */
  predicate OccursFrom(s: string, p: string, k: nat)
    requires k <= |s|
    decreases |s| - k
  {
    OccursAt(s, p, k) || (k + |p| < |s| && OccursFrom(s, p, k + 1))
  }

  /** The search finds something exactly when some position is an occurrence. */
  lemma {:induction false} OccursFromIndex(s: string, p: string, k: nat)
    requires k <= |s|
    decreases |s| - k
    ensures OccursFrom(s, p, k) <==> IndexFrom(s, p, k) >= 0
  {
    if !OccursAt(s, p, k) && k + |p| < |s| {
      OccursFromIndex(s, p, k + 1);
    }
  }

  lemma IncludesAt(s: string, p: string, i: int)
    requires OccursAt(s, p, i)
    ensures Includes(s, p)
  {
  }

  /** An occurrence inside a part of a string is an occurrence in the whole. */
  lemma OccursInConcat(a: string, b: string, p: string, i: int)
    ensures OccursAt(a, p, i) ==> OccursAt(a + b, p, i)
    ensures OccursAt(b, p, i) ==> OccursAt(a + b, p, |a| + i)
  {
    if OccursAt(a, p, i) {
      assert (a + b)[i..i + |p|] == a[i..i + |p|];
    }
    if OccursAt(b, p, i) {
      assert (a + b)[|a| + i..|a| + i + |p|] == b[i..i + |p|];
    }
  }

  /** A string contains a one-character pattern iff it contains that character. */
  lemma IncludesChar(s: string, c: char)
    ensures Includes(s, [c]) <==> c in s
  {
    if c in s {
      var i :| 0 <= i < |s| && s[i] == c;
      assert OccursAt(s, [c], i);
    }
    if Includes(s, [c]) {
      var i := IndexOf(s, [c]);
      assert s[i..i + 1] == [c];
      assert s[i] == c;
    }
  }

  /** `s.substring(start)`: ECMAScript clamps the start into [0, |s|]. */
  function Substring(s: string, start: int): (r: string)
    ensures |r| == if start <= 0 then |s| else if start >= |s| then 0 else |s| - start
    ensures r == s[|s| - |r|..]
  {
    if start <= 0 then s else if start >= |s| then "" else s[start..]
  }

  // ---------------------------------------------------------------------
  // Split and join

  /** `s.split(sep)` for a non-empty separator: occurrences are taken left
      to right, without overlap. */
  function Split(s: string, sep: string): (r: seq<string>)
    requires |sep| > 0
    decreases |s|
    ensures |r| >= 1
  {
    var i := IndexOf(s, sep);
    if i < 0 then [s] else [s[..i]] + Split(s[i + |sep|..], sep)
  }

  /** One step of a split: the piece before the first occurrence, then the
      split of what follows it. */
  lemma SplitStep(s: string, sep: string, i: int)
    requires |sep| > 0 && i == IndexOf(s, sep) && i >= 0
    ensures Split(s, sep) == [s[..i]] + Split(s[i + |sep|..], sep)
  {
  }

  /** `ps.join(sep)`. */
  function Join(ps: seq<string>, sep: string): string {
    if |ps| == 0 then "" else if |ps| == 1 then ps[0] else ps[0] + sep + Join(ps[1..], sep)
  }

  /** Round trip: joining the pieces of a split with the same separator gives the string back. */
  lemma {:induction false} JoinSplit(s: string, sep: string)
    requires |sep| > 0
    ensures Join(Split(s, sep), sep) == s
    decreases |s|
  {
    var i := IndexOf(s, sep);
    if i >= 0 {
      var rest := s[i + |sep|..];
      var tail := Split(rest, sep);
      JoinSplit(rest, sep);
      assert Split(s, sep) == [s[..i]] + tail;
      assert ([s[..i]] + tail)[1..] == tail;
      assert Join([s[..i]] + tail, sep) == s[..i] + sep + Join(tail, sep);
      assert s == s[..i] + s[i..i + |sep|] + rest;
    }
  }

  /** No piece of a split contains the separator. */
  lemma {:induction false} SplitPiecesFree(s: string, sep: string)
    requires |sep| > 0
    ensures forall k :: 0 <= k < |Split(s, sep)| ==> !Includes(Split(s, sep)[k], sep)
    decreases |s|
  {
    var i := IndexOf(s, sep);
    if i >= 0 {
      var rest := s[i + |sep|..];
      SplitPiecesFree(rest, sep);
      var head := s[..i];
      assert s == head + s[i..];
      forall j | 0 <= j <= |head| ensures !OccursAt(head, sep, j) {
        OccursInConcat(head, s[i..], sep, j);
      }
      assert Split(s, sep) == [head] + Split(rest, sep);
    }
  }

  /** An occurrence that lies inside a prefix is an occurrence in the prefix. */
  lemma OccursInPrefix(a: string, b: string, p: string, i: int)
    ensures i + |p| <= |a| && OccursAt(a + b, p, i) ==> OccursAt(a, p, i)
  {
    if 0 <= i && i + |p| <= |a| {
      assert (a + b)[i..i + |p|] == a[i..i + |p|];
    }
  }

  lemma IndexInPrefix(a: string, b: string, i: int)
    ensures 0 <= i < |a| ==> (a + b)[i] == a[i] && a[i] in a
  {
  }

  /** A one-character pattern occurs at `i` iff that character is at `i`. */
  lemma OccursChar(s: string, c: char, i: int)
    ensures OccursAt(s, [c], i) <==> 0 <= i < |s| && s[i] == c
  {
    if 0 <= i < |s| {
      assert s[i..i + 1] == [s[i]];
    }
  }

  /** Any occurrence of a non-empty pattern starts with the pattern's first character. */
  lemma OccursFirstChar(s: string, p: string, i: int)
    requires |p| > 0
    ensures OccursAt(s, p, i) ==> s[i] == p[0]
  {
    if OccursAt(s, p, i) {
      assert s[i] == s[i..i + |p|][0];
    }
  }

  /** The first occurrence is found in a prefix when the prefix already has one. */
  lemma IndexOfPrefix(a: string, b: string, p: string)
    requires IndexOf(a, p) >= 0
    ensures IndexOf(a + b, p) == IndexOf(a, p)
  {
    var i := IndexOf(a, p);
    OccursInConcat(a, b, p, i);
    var r := IndexOf(a + b, p);
    OccursInPrefix(a, b, p, r);
  }

  /** The first occurrence of a one-character separator appended right after
      a string that does not contain it. */
  lemma IndexOfAfterFree(a: string, b: string, c: char)
    requires c !in a
    ensures IndexOf(a + [c] + b, [c]) == |a|
  {
    var s := a + [c] + b;
    OccursChar(s, c, |a|);
    var r := IndexOf(s, [c]);
    OccursChar(s, c, r);
  }

  lemma SplitNoSeparator(s: string, c: char)
    requires c !in s
    ensures Split(s, [c]) == [s]
  {
    IncludesChar(s, c);
  }

  /** Splitting on a single character distributes over a concatenation joined
      by that character. */
  lemma {:induction false} SplitConcat(a: string, b: string, c: char)
    ensures Split(a + [c] + b, [c]) == Split(a, [c]) + Split(b, [c])
    decreases |a|
  {
    if c !in a {
      SplitConcatFree(a, b, c);
    } else {
      IncludesChar(a, c);
      var i := IndexOf(a, [c]);
      var a' := a[i + 1..];
      SplitConcatStep(a, b, c, i);
      SplitConcat(a', b, c);
      Regroup(Split(a + [c] + b, [c]), Split(a, [c]), Split(a' + [c] + b, [c]), Split(a', [c]), Split(b, [c]), a[..i]);
    }
  }

  lemma Regroup(whole: seq<string>, left: seq<string>, rest: seq<string>, leftRest: seq<string>, right: seq<string>, head: string)
    requires whole == [head] + rest && left == [head] + leftRest && rest == leftRest + right
    ensures whole == left + right
  {
  }

  lemma SplitConcatFree(a: string, b: string, c: char)
    requires c !in a
    ensures Split(a + [c] + b, [c]) == [a] + Split(b, [c])
    ensures Split(a, [c]) == [a]
  {
    var s := a + [c] + b;
    IndexOfAfterFree(a, b, c);
    assert s[..|a|] == a;
    assert s[|a| + 1..] == b;
    SplitStep(s, [c], |a|);
    SplitNoSeparator(a, c);
  }

  lemma SplitConcatStep(a: string, b: string, c: char, i: int)
    requires i == IndexOf(a, [c]) && i >= 0
    ensures Split(a + [c] + b, [c]) == [a[..i]] + Split(a[i + 1..] + [c] + b, [c])
    ensures Split(a, [c]) == [a[..i]] + Split(a[i + 1..], [c])
  {
    var s := a + [c] + b;
    assert s == a + ([c] + b);
    IndexOfPrefix(a, [c] + b, [c]);
    assert s[..i] == a[..i];
    assert s[i + 1..] == a[i + 1..] + [c] + b;
    SplitStep(s, [c], i);
    SplitStep(a, [c], i);
  }

  /** The other round trip: when no piece contains the separator's first
      character, splitting the join gives the pieces back. */
  lemma {:induction false} SplitJoin(ps: seq<string>, sep: string)
    requires |ps| > 0 && |sep| > 0
    requires forall k :: 0 <= k < |ps| ==> sep[0] !in ps[k]
    ensures Split(Join(ps, sep), sep) == ps
    decreases |ps|
  {
    var head := ps[0];
    if |ps| == 1 {
      OccursFirstChar(head, sep, IndexOf(head, sep));
      IndexInPrefix(head, [], IndexOf(head, sep));
    } else {
      var rest := Join(ps[1..], sep);
      SplitAfterFreeHead(head, sep, rest);
      SplitJoin(ps[1..], sep);
      assert [head] + ps[1..] == ps;
    }
  }

  /** When the separator's first character is absent from `head`, the first
      occurrence of the separator in `head + sep + rest` is the one after `head`. */
  lemma SplitAfterFreeHead(head: string, sep: string, rest: string)
    requires |sep| > 0 && sep[0] !in head
    ensures Split(head + sep + rest, sep) == [head] + Split(rest, sep)
  {
    var s := head + sep + rest;
    assert s[|head|..|head| + |sep|] == sep;
    var r := IndexOf(s, sep);
    assert OccursAt(s, sep, |head|);
    OccursFirstChar(s, sep, r);
    assert s == head + (sep + rest);
    IndexInPrefix(head, sep + rest, r);
    assert r == |head|;
    assert s[..r] == head;
    assert s[r + |sep|..] == rest;
    SplitStep(s, sep, r);
  }

  /** Total length of a sequence of strings. */
  function SumLen(ps: seq<string>): nat {
    if |ps| == 0 then 0 else |ps[0]| + SumLen(ps[1..])
  }

  /** A join of n pieces is the pieces' total length plus n - 1 separators. */
  lemma {:induction false} JoinLength(ps: seq<string>, sep: string)
    requires |ps| > 0
    ensures |Join(ps, sep)| == SumLen(ps) + (|ps| - 1) * |sep|
  {
    if |ps| > 1 {
      JoinLength(ps[1..], sep);
    }
  }

  /** Appending one more piece adds exactly one separator and the piece, at the end. */
  lemma {:induction false} JoinSnoc(ps: seq<string>, p: string, sep: string)
    requires |ps| > 0
    ensures Join(ps + [p], sep) == Join(ps, sep) + sep + p
  {
    if |ps| > 1 {
      JoinSnoc(ps[1..], p, sep);
      assert (ps + [p])[1..] == ps[1..] + [p];
    } else {
      assert (ps + [p])[1..] == [p];
    }
  }

  // ---------------------------------------------------------------------
  // Counting occurrences

  /** The number of positions at which `p` occurs in `s`. */
  function Count(s: string, p: string): nat {
    if |s| == 0 then 0 else (if OccursAt(s, p, 0) then 1 else 0) + Count(s[1..], p)
  }

  /** An occurrence in the tail is an occurrence one place later in the whole. */
  lemma OccursShift(s: string, p: string, j: nat)
    requires |s| > 0
    ensures OccursAt(s[1..], p, j) <==> OccursAt(s, p, j + 1)
  {
    if j + 1 + |p| <= |s| {
      assert s[1..][j..j + |p|] == s[j + 1..j + 1 + |p|];
    }
  }

  /** Positions before the first occurrence contribute nothing to the count. */
  lemma {:induction false} CountSkip(s: string, p: string, k: nat)
    requires k <= |s|
    requires forall j :: 0 <= j < k ==> !OccursAt(s, p, j)
    ensures Count(s, p) == Count(s[k..], p)
  {
    if k > 0 {
      forall j | 0 <= j < k - 1 ensures !OccursAt(s[1..], p, j) {
        OccursShift(s, p, j);
      }
      CountSkip(s[1..], p, k - 1);
      assert s[1..][k - 1..] == s[k..];
    }
  }

  // ---------------------------------------------------------------------
  // Length, case, numbers

  /** `s.length`: ECMAScript strings count UTF-16 code units, so a character
      outside the Basic Multilingual Plane counts twice. */
  function Utf16Length(s: string): (n: nat)
    ensures |s| <= n <= 2 * |s|
  {
    if |s| == 0 then 0 else (if s[0] as int >= 0x1_0000 then 2 else 1) + Utf16Length(s[1..])
  }

  function LowerChar(c: char): (d: char)
    ensures !('A' <= d <= 'Z')
  {
    if 'A' <= c <= 'Z' then (c as int + 32) as char else c
  }

  /** `s.toLowerCase()` on the ASCII letters. */
  function ToLower(s: string): (r: string)
    ensures |r| == |s|
    ensures forall k :: 0 <= k < |s| ==> r[k] == LowerChar(s[k])
  {
    if |s| == 0 then "" else [LowerChar(s[0])] + ToLower(s[1..])
  }

  function Digit(d: nat): (c: char)
    requires d < 10
    ensures '0' <= c <= '9'
  {
    ('0' as int + d) as char
  }

  /** The decimal rendering of a non-negative integer, as template-literal
      interpolation produces it. */
  function Decimal(n: nat): (r: string)
    ensures |r| > 0
    ensures forall k :: 0 <= k < |r| ==> '0' <= r[k] <= '9'
  {
    if n < 10 then [Digit(n)] else Decimal(n / 10) + [Digit(n % 10)]
  }

  /** The value of a string of decimal digits. */
  function DecimalValue(s: string): nat
    requires forall k :: 0 <= k < |s| ==> '0' <= s[k] <= '9'
  {
    if |s| == 0 then 0 else 10 * DecimalValue(s[..|s| - 1]) + (s[|s| - 1] as int - '0' as int)
  }

  /** Reading a rendered number back yields the number. */
  lemma {:induction false} DecimalRoundTrip(n: nat)
    ensures DecimalValue(Decimal(n)) == n
  {
    if n >= 10 {
      DecimalRoundTrip(n / 10);
      var s := Decimal(n);
      assert s[..|s| - 1] == Decimal(n / 10);
    }
  }
}
