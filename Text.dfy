/**
 * The pieces of Swift's String API that the core relies on, restricted to
 * the characters the model covers: ASCII, plus the Turkish letters
 * Ç Ş Ğ Ö Ü (and dotless ı) whose case mappings are one character to one
 * character.
 */
module Text {
  import opened Wrappers
  import Seqs

  /** The two Foundation sets passed to `trimmingCharacters(in:)`. */
  datatype CharacterSet = Whitespaces | WhitespacesAndNewlines

  predicate InSet(c: char, cs: CharacterSet) {
    match cs
    case Whitespaces => c == ' ' || c == '\t'
    case WhitespacesAndNewlines =>
      c == ' ' || c == '\t' || c == '\n' || c == '\r' || c == '\U{000B}' || c == '\U{000C}'
  }

  /** The index of the first character at or after `k` that is not in `cs`. */
  function LeadingEnd(s: string, cs: CharacterSet, k: nat): (e: nat)
    requires k <= |s|
    ensures k <= e <= |s|
    ensures forall j :: k <= j < e ==> InSet(s[j], cs)
    ensures e == |s| || !InSet(s[e], cs)
    decreases |s| - k
  {
    if k < |s| && InSet(s[k], cs) then LeadingEnd(s, cs, k + 1) else k
  }

  /** The index just past the last character before `k` that is not in `cs`. */
  function TrailingStart(s: string, cs: CharacterSet, k: nat): (b: nat)
    requires k <= |s|
    ensures b <= k
    ensures forall j :: b <= j < k ==> InSet(s[j], cs)
    ensures b == 0 || !InSet(s[b - 1], cs)
  {
    if k > 0 && InSet(s[k - 1], cs) then TrailingStart(s, cs, k - 1) else k
  }

  /** Drops the members of `cs` at the front of `s`. */
  function TrimLeading(s: string, cs: CharacterSet): (r: string)
    ensures |r| <= |s|
    ensures forall k :: 0 <= k < |s| - |r| ==> InSet(s[k], cs)
    ensures r == [] || !InSet(r[0], cs)
  {
    s[LeadingEnd(s, cs, 0)..]
  }

  /** Drops the members of `cs` at the back of `s`. */
  function TrimTrailing(s: string, cs: CharacterSet): (r: string)
    ensures |r| <= |s|
    ensures forall k :: |r| <= k < |s| ==> InSet(s[k], cs)
    ensures r == [] || !InSet(r[|r| - 1], cs)
  {
    s[..TrailingStart(s, cs, |s|)]
  }

  /** `s.trimmingCharacters(in: cs)` */
  function Trim(s: string, cs: CharacterSet): (r: string)
    ensures |r| <= |s|
    ensures r == [] <==> forall k :: 0 <= k < |s| ==> InSet(s[k], cs)
    ensures r == [] || (!InSet(r[0], cs) && !InSet(r[|r| - 1], cs))

  {
    var t := TrimLeading(s, cs);
    var r := TrimTrailing(t, cs);
    assert r == [] ==> t == [];
    r
  }

  /** Every character of `s` belongs to `cs`: trimming leaves nothing. */
  predicate Blank(s: string, cs: CharacterSet) {
    forall k :: 0 <= k < |s| ==> InSet(s[k], cs)
  }

  /** A string that trimming leaves as it is. */
  predicate IsTrimmed(s: string, cs: CharacterSet) {
    s == [] || (!InSet(s[0], cs) && !InSet(s[|s| - 1], cs))
  }

  lemma TrimOfTrimmed(s: string, cs: CharacterSet)
    requires IsTrimmed(s, cs)
    ensures Trim(s, cs) == s
  {
  }

  /** Trimming only removes characters: whatever the result holds, `s` holds. */
  lemma TrimIsInfix(s: string, cs: CharacterSet)
    ensures forall c :: c in Trim(s, cs) ==> c in s
  {
    var t := TrimLeading(s, cs);
    var r := TrimTrailing(t, cs);
    forall c | c in r ensures c in s {
      var k :| 0 <= k < |r| && r[k] == c;
      assert t[k] == c;
      assert s[|s| - |t| + k] == c;
    }
  }

  /** `s` and `t` have members of `cs` at the same positions. */
  predicate SameBlanks(s: string, t: string, cs: CharacterSet) {
    |s| == |t| && forall i :: 0 <= i < |s| ==> (InSet(s[i], cs) <==> InSet(t[i], cs))
  }

  lemma {:induction false} LeadingEndAgrees(s: string, t: string, cs: CharacterSet, k: nat)
    requires SameBlanks(s, t, cs) && k <= |s|
    ensures LeadingEnd(s, cs, k) == LeadingEnd(t, cs, k)
    decreases |s| - k
  {
    if k < |s| {
      LeadingEndAgrees(s, t, cs, k + 1);
    }
  }

  lemma {:induction false} TrailingStartAgrees(s: string, t: string, cs: CharacterSet, k: nat)
    requires SameBlanks(s, t, cs) && k <= |s|
    ensures TrailingStart(s, cs, k) == TrailingStart(t, cs, k)
  {
    if k > 0 {
      TrailingStartAgrees(s, t, cs, k - 1);
    }
  }

  /**
   * Trimming depends only on where the members of `cs` are: two strings
   * with the same blanks are trimmed to the same range.
   */
  lemma TrimAgrees(s: string, t: string, cs: CharacterSet) returns (o: nat, n: nat)
    requires SameBlanks(s, t, cs)
    ensures o <= |s| && n <= |s| - o
    ensures Trim(s, cs) == s[o..][..n] && Trim(t, cs) == t[o..][..n]
  {
    o := LeadingEnd(s, cs, 0);
    LeadingEndAgrees(s, t, cs, 0);
    SameBlanksSuffix(s, t, cs, o);
    n := TrailingStart(s[o..], cs, |s| - o);
    TrailingStartAgrees(s[o..], t[o..], cs, |s| - o);
  }

  lemma SameBlanksSuffix(s: string, t: string, cs: CharacterSet, o: nat)
    requires SameBlanks(s, t, cs) && o <= |s|
    ensures SameBlanks(s[o..], t[o..], cs)
  {
    forall i | 0 <= i < |s| - o
      ensures InSet(s[o..][i], cs) <==> InSet(t[o..][i], cs)
    {
      assert s[o..][i] == s[o + i] && t[o..][i] == t[o + i];
    }
  }

  /**
   * Trimming returns the input with its blank ends removed: a contiguous
   * slice of `s` with only members of `cs` before and after it.
   */
  lemma TrimSlice(s: string, cs: CharacterSet) returns (o: nat)
    ensures o + |Trim(s, cs)| <= |s|
    ensures Trim(s, cs) == s[o..o + |Trim(s, cs)|]
    ensures Blank(s[..o], cs) && Blank(s[o + |Trim(s, cs)|..], cs)
  {
    o := LeadingEnd(s, cs, 0);
    var t := s[o..];
    var n := TrailingStart(t, cs, |t|);
    assert t[..n] == s[o..o + n];
    BlankSuffix(s, t, cs, o, n);
  }

  lemma BlankSuffix(s: string, t: string, cs: CharacterSet, o: nat, n: nat)
    requires o <= |s| && t == s[o..] && n <= |t|
    requires forall j :: n <= j < |t| ==> InSet(t[j], cs)
    ensures Blank(s[o + n..], cs)
  {
    var rest := s[o + n..];
    forall k | 0 <= k < |rest|
      ensures InSet(rest[k], cs)
    {
      assert rest[k] == t[n + k];
    }
  }

  /** The first character outside `cs` is where leading trimming stops. */
  lemma LeadingEndIs(s: string, cs: CharacterSet, e: nat)
    requires e <= |s| && (e == |s| || !InSet(s[e], cs))
    requires forall j :: 0 <= j < e ==> InSet(s[j], cs)
    ensures LeadingEnd(s, cs, 0) == e
  {
  }

  /** Trailing trimming stops just after the last character outside `cs`. */
  lemma TrailingStartIs(s: string, cs: CharacterSet, b: nat)
    requires b <= |s| && (b == 0 || !InSet(s[b - 1], cs))
    requires forall j :: b <= j < |s| ==> InSet(s[j], cs)
    ensures TrailingStart(s, cs, |s|) == b
  {
  }

  /** Leading trimming stops inside a head that is not blank. */
  lemma TrimLeadingNonBlankHead(a: string, b: string, cs: CharacterSet)
    requires !Blank(a, cs)
    ensures TrimLeading(a + b, cs) == TrimLeading(a, cs) + b
  {
    var e := LeadingEnd(a, cs, 0);
    LeadingEndIs(a + b, cs, e);
    assert (a + b)[e..] == a[e..] + b;
  }

  /** A blank head is trimmed away entirely. */
  lemma TrimLeadingBlankHead(a: string, b: string, cs: CharacterSet)
    requires Blank(a, cs)
    ensures TrimLeading(a + b, cs) == TrimLeading(b, cs)
  {
    var e := LeadingEnd(b, cs, 0);
    forall j | 0 <= j < |a| + e
      ensures InSet((a + b)[j], cs)
    {
      if j >= |a| {
        assert (a + b)[j] == b[j - |a|];
      }
    }
    LeadingEndIs(a + b, cs, |a| + e);
    assert (a + b)[|a| + e..] == b[e..];
  }

  /** Trailing trimming stops inside a tail that is not blank. */
  lemma TrimTrailingNonBlankTail(a: string, b: string, cs: CharacterSet)
    requires !Blank(b, cs)
    ensures TrimTrailing(a + b, cs) == a + TrimTrailing(b, cs)
  {
    var t := TrailingStart(b, cs, |b|);
    forall j | |a| + t <= j < |a + b|
      ensures InSet((a + b)[j], cs)
    {
      assert (a + b)[j] == b[j - |a|];
    }
    TrailingStartIs(a + b, cs, |a| + t);
    assert (a + b)[..|a| + t] == a + b[..t];
  }

  /** A blank tail is trimmed away entirely. */
  lemma TrimTrailingBlankTail(a: string, b: string, cs: CharacterSet)
    requires Blank(b, cs)
    ensures TrimTrailing(a + b, cs) == TrimTrailing(a, cs)
  {
    var t := TrailingStart(a, cs, |a|);
    forall j | t <= j < |a + b|
      ensures InSet((a + b)[j], cs)
    {
      if j >= |a| {
        assert (a + b)[j] == b[j - |a|];
      }
    }
    TrailingStartIs(a + b, cs, t);
    assert (a + b)[..t] == a[..t];
  }

  lemma TrimIsTrimmed(s: string, cs: CharacterSet)
    ensures IsTrimmed(Trim(s, cs), cs)
  {
  }

  /** Simple case mappings, one character to one character. */
  function LowerChar(c: char): char {
    if 'A' <= c <= 'Z' then (c as int + 32) as char
    else if c == 'Ç' then 'ç'
    else if c == 'Ş' then 'ş'
    else if c == 'Ğ' then 'ğ'
    else if c == 'Ö' then 'ö'
    else if c == 'Ü' then 'ü'
    else c
  }

  function UpperChar(c: char): char {
    if 'a' <= c <= 'z' then (c as int - 32) as char
    else if c == 'ç' then 'Ç'
    else if c == 'ş' then 'Ş'
    else if c == 'ğ' then 'Ğ'
    else if c == 'ö' then 'Ö'
    else if c == 'ü' then 'Ü'
    else if c == 'ı' then 'I'
    else c
  }

  /** `s.lowercased()` */
  function Lowercased(s: string): (r: string)
    ensures |r| == |s| && forall i :: 0 <= i < |s| ==> r[i] == LowerChar(s[i])
  {
    seq(|s|, i requires 0 <= i < |s| => LowerChar(s[i]))
  }

  /** `s.uppercased()` */
  function Uppercased(s: string): (r: string)
    ensures |r| == |s| && forall i :: 0 <= i < |s| ==> r[i] == UpperChar(s[i])
  {
    seq(|s|, i requires 0 <= i < |s| => UpperChar(s[i]))
  }

  lemma UppercasedIdempotent(s: string)
    ensures Uppercased(Uppercased(s)) == Uppercased(s)
  {
  }

  /** Strings of capital ASCII letters are left alone by upper-casing. */
  lemma UpperCaseLetters(s: string)
    requires forall i :: 0 <= i < |s| ==> 'A' <= s[i] <= 'Z'
    ensures Uppercased(s) == s
  {
  }

  /** Upper-casing, checked one character at a time. */
  lemma UppercasedIs(s: string, t: string)
    requires |s| == |t| && forall i :: 0 <= i < |s| ==> UpperChar(s[i]) == t[i]
    ensures Uppercased(s) == t
  {
  }

  /** One space of padding on each side of a trimmed word is removed. */
  lemma TrimPadded(s: string, cs: CharacterSet)
    requires s != [] && IsTrimmed(s, cs) && InSet(' ', cs)
    ensures Trim([' '] + s + [' '], cs) == s
  {
    var p := [' '] + s + [' '];
    assert p[1..] == s + [' '];
    assert TrimLeading(p, cs) == TrimLeading(s + [' '], cs);
    assert TrimLeading(s + [' '], cs) == s + [' '];
    assert (s + [' '])[..|s|] == s;
    assert TrimTrailing(s + [' '], cs) == TrimTrailing(s, cs);
  }

  /** One space before a trimmed word is removed. */
  lemma TrimPadLeft(s: string, cs: CharacterSet)
    requires IsTrimmed(s, cs) && InSet(' ', cs)
    ensures Trim([' '] + s, cs) == s
  {
    var p := [' '] + s;
    assert p[1..] == s;
    assert TrimLeading(p, cs) == TrimLeading(s, cs);
    TrimOfTrimmed(s, cs);
  }

  /** `sub` occurs in `s` starting at index `i`. */
  predicate OccursAt(s: string, sub: string, i: int) {
    0 <= i && i + |sub| <= |s| && s[i..i + |sub|] == sub
  }

  /** `s.contains(sub)` for a string argument: substring containment. */
  predicate Contains(s: string, sub: string) {
    exists i :: 0 <= i <= |s| && OccursAt(s, sub, i)
  }

  /** `s.contains(where: p)` */
  predicate ContainsWhere(s: string, p: char -> bool) {
    exists i :: 0 <= i < |s| && p(s[i])
  }

  /** `needles.contains { s.contains($0) }`, trying the needles in order. */
  predicate ContainsAny(s: string, needles: seq<string>) {
    |needles| > 0 && (Contains(s, needles[0]) || ContainsAny(s, needles[1..]))
  }

  /** No non-empty needle occurs in the empty string. */
  lemma {:induction false} ContainsAnyInEmpty(needles: seq<string>)
    requires forall n :: 0 <= n < |needles| ==> |needles[n]| > 0
    ensures !ContainsAny([], needles)
    decreases |needles|
  {
    if |needles| > 0 {
      ContainsAnyInEmpty(needles[1..]);
    }
  }

  lemma {:induction false} ContainsAnyIff(s: string, needles: seq<string>)
    ensures ContainsAny(s, needles) <==> exists n :: 0 <= n < |needles| && Contains(s, needles[n])
  {
    if |needles| > 0 {
      ContainsAnyIff(s, needles[1..]);
      if !Contains(s, needles[0]) && exists n :: 0 <= n < |needles| && Contains(s, needles[n]) {
        var n :| 0 <= n < |needles| && Contains(s, needles[n]);
        assert needles[1..][n - 1] == needles[n];
      }
    }
  }

  /** Trying more needles finds at least what trying fewer found. */
  lemma ContainsAnyOfSubList(s: string, needles: seq<string>, more: seq<string>)
    requires forall n :: 0 <= n < |needles| ==> needles[n] in more
    ensures ContainsAny(s, needles) ==> ContainsAny(s, more)
  {
    ContainsAnyIff(s, needles);
    ContainsAnyIff(s, more);
    if ContainsAny(s, needles) {
      var n :| 0 <= n < |needles| && Contains(s, needles[n]);
      var m :| 0 <= m < |more| && more[m] == needles[n];
      assert Contains(s, more[m]);
    }
  }

  /** A substring of a part is a substring of the whole. */
  lemma ContainsInAppend(a: string, b: string, sub: string)
    requires Contains(b, sub)
    ensures Contains(a + b, sub)
  {
    var i :| 0 <= i <= |b| && OccursAt(b, sub, i);
    assert (a + b)[|a| + i..|a| + i + |sub|] == b[i..i + |sub|];
    assert OccursAt(a + b, sub, |a| + i);
  }

  /** `Character.isNumber`, restricted to ASCII digits. */
  predicate IsDigit(c: char) {
    '0' <= c <= '9'
  }

  predicate AllDigits(s: string) {
    forall i :: 0 <= i < |s| ==> IsDigit(s[i])
  }

  /** `s.filter(\.isNumber)` */
  function KeepDigits(s: string): (r: string)
    ensures |r| <= |s|
    ensures AllDigits(r)
    ensures AllDigits(s) ==> r == s
  {
    if s == [] then []
    else (if IsDigit(s[0]) then [s[0]] else []) + KeepDigits(s[1..])
  }

  lemma {:induction false} KeepDigitsAppend(a: string, b: string)
    ensures KeepDigits(a + b) == KeepDigits(a) + KeepDigits(b)
  {
    if a == [] {
      assert a + b == b;
    } else {
      assert (a + b)[1..] == a[1..] + b;
      KeepDigitsAppend(a[1..], b);
    }
  }

  /** A string without digits keeps nothing. */
  lemma {:induction false} NoDigitsKept(s: string)
    requires forall k :: 0 <= k < |s| ==> !IsDigit(s[k])
    ensures KeepDigits(s) == []
    decreases |s|
  {
    if s != [] {
      KeepDigitsAppend([s[0]], s[1..]);
      assert [s[0]] + s[1..] == s;
      NoDigitsKept(s[1..]);
    }
  }

  /** Non-digits between two strings leave no trace in the kept digits. */
  lemma KeepDigitsSkips(a: string, sep: string, b: string)
    requires forall k :: 0 <= k < |sep| ==> !IsDigit(sep[k])
    ensures KeepDigits(a + sep + b) == KeepDigits(a) + KeepDigits(b)
  {
    KeepDigitsAppend(a + sep, b);
    KeepDigitsAppend(a, sep);
    NoDigitsKept(sep);
    assert KeepDigits(a) + [] == KeepDigits(a);
  }

  /** `String(s.prefix(n))` */
  function Prefix(s: string, n: nat): (r: string)
    ensures |r| == if |s| < n then |s| else n
    ensures r <= s
  {
    if |s| <= n then s else s[..n]
  }

  /** `String(s.suffix(n))` */
  function Suffix(s: string, n: nat): (r: string)
    ensures |r| == if |s| < n then |s| else n
    ensures r == s[|s| - |r|..]
  {
    if |s| <= n then s else s[|s| - n..]
  }

  /** The pieces of `parts` joined with nothing between them. */
  function Concat(parts: seq<string>): string {
    if parts == [] then [] else parts[0] + Concat(parts[1..])
  }

  /** `s` with every `sep` removed. */
  function Without(s: string, sep: char): (r: string)
    ensures sep !in r
    ensures sep !in s ==> r == s
  {
    if s == [] then []
    else (if s[0] == sep then [] else [s[0]]) + Without(s[1..], sep)
  }

  lemma {:induction false} WithoutAppend(a: string, b: string, sep: char)
    ensures Without(a + b, sep) == Without(a, sep) + Without(b, sep)
  {
    if a == [] {
      assert a + b == b;
    } else {
      assert (a + b)[1..] == a[1..] + b;
      WithoutAppend(a[1..], b, sep);
    }
  }

  /** `s.firstIndex(of: c)` */
  function IndexOf(s: string, c: char): (r: Option<nat>)
    ensures r.Some? ==> r.value < |s| && s[r.value] == c && c !in s[..r.value]
    ensures r.None? ==> c !in s
  {
    if s == [] then None
    else if s[0] == c then Some(0)
    else match IndexOf(s[1..], c)
      case None => None
      case Some(k) => assert s[..k + 1] == [s[0]] + s[1..][..k]; Some(k + 1)
  }

  /**
   * `s.split(separator: sep)` with its default of omitting empty
   * subsequences: the pieces are non-empty and hold no separator.
   */
  function SplitOn(s: string, sep: char): (parts: seq<string>)
    ensures forall i :: 0 <= i < |parts| ==> parts[i] != [] && sep !in parts[i]
    decreases |s|
  {
    match IndexOf(s, sep)
    case None => if s == [] then [] else [s]
    case Some(i) => (if i == 0 then [] else [s[..i]]) + SplitOn(s[i + 1..], sep)
  }

  /** The first occurrence is found. */
  lemma IndexOfFirst(a: string, c: char, b: string)
    requires c !in a
    ensures IndexOf(a + [c] + b, c) == Some(|a|)
  {
    var s := a + [c] + b;
    assert s[|a|] == c;
    assert s[..|a|] == a;
  }

  /** Splitting peels off a separator-free head. */
  lemma SplitOnHead(a: string, sep: char, b: string)
    requires a != [] && sep !in a
    ensures SplitOn(a + [sep] + b, sep) == [a] + SplitOn(b, sep)
  {
    var s := a + [sep] + b;
    IndexOfFirst(a, sep, b);
    assert s[..|a|] == a;
    assert s[|a| + 1..] == b;
  }

  /** A leading separator yields no empty piece: it is skipped. */
  lemma SplitOnLeadingSeparator(sep: char, b: string)
    ensures SplitOn([sep] + b, sep) == SplitOn(b, sep)
  {
    IndexOfFirst([], sep, b);
    assert [] + [sep] + b == [sep] + b;
    assert ([sep] + b)[1..] == b;
  }

  /** A non-empty string without the separator is a single piece. */
  lemma SplitOnLone(s: string, sep: char)
    requires s != [] && sep !in s
    ensures SplitOn(s, sep) == [s]
  {
  }

  /** Three separator-free pieces joined by the separator split back apart. */
  lemma SplitOnThree(x: string, y: string, z: string, sep: char)
    requires x != [] && y != [] && z != []
    requires sep !in x && sep !in y && sep !in z
    ensures SplitOn(x + [sep] + (y + [sep] + z), sep) == [x, y, z]
  {
    SplitOnHead(x, sep, y + [sep] + z);
    SplitOnHead(y, sep, z);
    SplitOnLone(z, sep);
  }

  /** The pieces with the separator between each two of them. */
  function JoinWith(parts: seq<string>, sep: char): string
    decreases |parts|
  {
    if |parts| == 0 then []
    else if |parts| == 1 then parts[0]
    else parts[0] + [sep] + JoinWith(parts[1..], sep)
  }

  /** Non-empty, separator-free pieces joined by the separator split back apart. */
  lemma {:induction false} SplitOnJoinWith(parts: seq<string>, sep: char)
    requires forall i :: 0 <= i < |parts| ==> parts[i] != [] && sep !in parts[i]
    ensures SplitOn(JoinWith(parts, sep), sep) == parts
    decreases |parts|
  {
    if |parts| == 1 {
      SplitOnLone(parts[0], sep);
    } else if |parts| > 1 {
      SplitOnJoinWith(parts[1..], sep);
      SplitOnHead(parts[0], sep, JoinWith(parts[1..], sep));
      assert parts == [parts[0]] + parts[1..];
    }
  }

  /** Removing the separators around a separator-free head keeps the head. */
  lemma {:induction false} WithoutAfterHead(head: string, tail: string, sep: char)
    requires sep !in head
    ensures Without(head + ([sep] + tail), sep) == head + Without(tail, sep)
  {
    var t := [sep] + tail;
    WithoutAppend(head, t, sep);
    assert t[1..] == tail;
    assert Without(t, sep) == Without(tail, sep);
    assert Without(head, sep) == head;
  }

  /** Joined back together, the pieces give `s` without its separators, in order. */
  lemma {:induction false} SplitOnJoin(s: string, sep: char)
    ensures Concat(SplitOn(s, sep)) == Without(s, sep)
    decreases |s|
  {
    match IndexOf(s, sep)
    case None =>
      SplitOnJoinLast(s, sep);
    case Some(i) =>
      SplitOnJoin(s[i + 1..], sep);
      SplitOnJoinStep(s, sep, i);
  }

  /** Without a separator, `s` is its own single piece, or no piece when empty. */
  lemma SplitOnJoinLast(s: string, sep: char)
    requires IndexOf(s, sep).None?
    ensures Concat(SplitOn(s, sep)) == Without(s, sep)
  {
    assert Without(s, sep) == s;
    if s != [] {
      assert SplitOn(s, sep) == [s];
      ConcatCons(s, []);
    } else {
      assert SplitOn(s, sep) == [];
    }
  }

  /** One step of the split: the head before the first separator, then the rest. */
  lemma SplitOnJoinStep(s: string, sep: char, i: nat)
    requires IndexOf(s, sep) == Some(i)
    requires Concat(SplitOn(s[i + 1..], sep)) == Without(s[i + 1..], sep)
    ensures Concat(SplitOn(s, sep)) == Without(s, sep)
  {
    var head, tail := s[..i], s[i + 1..];
    SplitOnUnfold(s, sep, i);
    SplitAround(s, i);
    WithoutAfterHead(head, tail, sep);
    if i == 0 {
      assert [] + SplitOn(tail, sep) == SplitOn(tail, sep);
      assert head == [];
    } else {
      ConcatCons(head, SplitOn(tail, sep));
    }
  }

  /** The first separator cuts `s` into the head piece and the rest. */
  lemma SplitOnUnfold(s: string, sep: char, i: nat)
    requires IndexOf(s, sep) == Some(i)
    ensures SplitOn(s, sep) == (if i == 0 then [] else [s[..i]]) + SplitOn(s[i + 1..], sep)
  {
  }

  /** `s` is what comes before index `i`, the element there, and what follows. */
  lemma SplitAround(s: string, i: nat)
    requires i < |s|
    ensures s == s[..i] + ([s[i]] + s[i + 1..])
  {
  }

  lemma ConcatCons(x: string, xs: seq<string>)
    ensures Concat([x] + xs) == x + Concat(xs)
  {
    assert ([x] + xs)[1..] == xs;
  }
}
