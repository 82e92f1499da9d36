/** The parts of Go's `strings`, `strconv` and `unicode` packages that the gateway calls. A string is
    its sequence of code points; comparing code points orders strings as Go's byte order does. */
module GoStrings {
  import opened MigTypes

  // ----- white space -----

  predicate IsSpace(c: char) {
    || '\t' <= c <= '\r' || c == ' ' || c == '\U{85}' || c == '\U{A0}' || c == '\U{1680}'
    || '\U{2000}' <= c <= '\U{200A}' || c == '\U{2028}' || c == '\U{2029}'
    || c == '\U{202F}' || c == '\U{205F}' || c == '\U{3000}'
  }

  /** No white space at either end. */
  predicate Trimmed(s: string) {
    s == "" || (!IsSpace(s[0]) && !IsSpace(s[|s| - 1]))
  }

  function TrimLeft(s: string): (r: string)
    ensures r == "" || !IsSpace(r[0])
  {
    if s != "" && IsSpace(s[0]) then TrimLeft(s[1..]) else s
  }

  function TrimRight(s: string): (r: string)
    ensures r <= s
    ensures r == "" || !IsSpace(r[|r| - 1])
  {
    if s != "" && IsSpace(s[|s| - 1]) then TrimRight(s[..|s| - 1]) else s
  }

  function TrimSpace(s: string): (r: string)
    ensures Trimmed(r)
    ensures Trimmed(s) ==> r == s
  {
    TrimRight(TrimLeft(s))
  }

  predicate Blank(s: string) {
    forall i | 0 <= i < |s| :: IsSpace(s[i])
  }

  lemma {:induction false} TrimLeftCuts(s: string) returns (k: nat)
    ensures k <= |s| && TrimLeft(s) == s[k..] && Blank(s[..k])
  {
    k := 0;
    if s != "" && IsSpace(s[0]) {
      var j := TrimLeftCuts(s[1..]);
      k := j + 1;
      assert s[1..][j..] == s[k..];
      assert forall i | 1 <= i < k :: s[i] == s[1..][..j][i - 1];
    }
  }

  lemma {:induction false} TrimRightCuts(s: string)
    ensures Blank(s[|TrimRight(s)|..])
  {
    if s != "" && IsSpace(s[|s| - 1]) {
      var front := s[..|s| - 1];
      TrimRightCuts(front);
      var n := |TrimRight(s)|;
      assert s[n..] == front[n..] + [s[|s| - 1]];
    }
  }

  /** Trimming cuts off white space at both ends, and nothing else. */
  lemma TrimCutsBlanks(s: string) returns (left: string, right: string)
    ensures s == left + TrimSpace(s) + right && Blank(left) && Blank(right)
  {
    var k := TrimLeftCuts(s);
    var rest := s[k..];
    TrimRightCuts(rest);
    left, right := s[..k], rest[|TrimRight(rest)|..];
  }

  /** What stands between white space and does not begin or end with any is what trimming leaves. */
  lemma TrimFinds(left: string, word: string, right: string)
    requires Blank(left) && Blank(right) && Trimmed(word) && word != ""
    ensures TrimSpace(left + word + right) == word
  {
    assert left + word + right == left + (word + right);
    TrimLeftSkips(left, word + right);
    TrimRightSkips(word, right);
  }

  lemma {:induction false} TrimBlank(s: string)
    requires Blank(s)
    ensures TrimLeft(s) == "" && TrimSpace(s) == ""
  {
    if s != "" { TrimBlank(s[1..]); }
  }

  lemma {:induction false} TrimLeftSkips(left: string, rest: string)
    requires Blank(left) && rest != "" && !IsSpace(rest[0])
    ensures TrimLeft(left + rest) == rest
  {
    if left != "" {
      assert (left + rest)[1..] == left[1..] + rest;
      TrimLeftSkips(left[1..], rest);
    } else {
      assert left + rest == rest;
    }
  }

  lemma {:induction false} TrimRightSkips(word: string, right: string)
    requires Blank(right) && word != "" && !IsSpace(word[|word| - 1])
    ensures TrimRight(word + right) == word
  {
    var s := word + right;
    if right != "" {
      var n := |right| - 1;
      assert s[..|s| - 1] == word + right[..n];
      TrimRightSkips(word, right[..n]);
    } else {
      assert s == word;
    }
  }

  /** `strings.Fields`: the maximal runs of non-space characters. */
  function Fields(s: string): (words: seq<string>)
    ensures forall w | w in words :: w != "" && forall i | 0 <= i < |w| :: !IsSpace(w[i])
  {
    if s == "" then []
    else
      var rest := Fields(s[1..]);
      if IsSpace(s[0]) then rest else Extend(s[0], |s| > 1 && !IsSpace(s[1]), rest)
  }

  /** Puts a character in front: into the first word if it continues it, as a word of its own if not. */
  function Extend(c: char, continues: bool, words: seq<string>): seq<string> {
    if continues && words != [] then [[c] + words[0]] + words[1..] else [[c]] + words
  }

  function Concat(words: seq<string>): string {
    if words == [] then "" else words[0] + Concat(words[1..])
  }

  function WithoutSpace(s: string): string {
    if s == "" then "" else (if IsSpace(s[0]) then "" else [s[0]]) + WithoutSpace(s[1..])
  }

  /** The number of places where a word ends. */
  function WordEnds(s: string): nat {
    if s == "" then 0
    else WordEnds(s[1..]) + if !IsSpace(s[0]) && (|s| == 1 || IsSpace(s[1])) then 1 else 0
  }

  /** The words are the text without its white space, cut exactly where a word ends. */
  lemma {:induction false} FieldsLaws(s: string)
    ensures Concat(Fields(s)) == WithoutSpace(s)
    ensures |Fields(s)| == WordEnds(s)
    ensures s != "" && !IsSpace(s[0]) ==> Fields(s) != []
  {
    hide Extend, Concat;
    if s == "" {
      ConcatNothing();
    } else {
      FieldsLaws(s[1..]);
      if !IsSpace(s[0]) {
        ExtendLaws(s[0], |s| > 1 && !IsSpace(s[1]), Fields(s[1..]));
      }
    }
  }

  lemma ConcatNothing()
    ensures Concat([]) == ""
  {
  }

  lemma ExtendLaws(c: char, continues: bool, words: seq<string>)
    ensures var r := Extend(c, continues, words);
      && Concat(r) == [c] + Concat(words)
      && |r| == |words| + if continues && words != [] then 0 else 1
  {
    if continues && words != [] {
      assert ([[c] + words[0]] + words[1..])[1..] == words[1..];
      assert [c] + (words[0] + Concat(words[1..])) == ([c] + words[0]) + Concat(words[1..]);
    } else {
      assert ([[c]] + words)[1..] == words;
    }
  }

  predicate Contains(s: string, sub: string) {
    sub <= s || (s != "" && Contains(s[1..], sub))
  }

  lemma {:induction false} ContainsIff(s: string, sub: string)
    ensures Contains(s, sub) <==> exists i :: 0 <= i <= |s| && sub <= s[i..]
  {
    assert s[0..] == s;
    if s != "" {
      ContainsIff(s[1..], sub);
      forall i | 0 <= i < |s| ensures s[1..][i..] == s[i + 1..] {}
      if i :| 0 <= i <= |s[1..]| && sub <= s[1..][i..] {
        assert sub <= s[i + 1..];
      }
      if i :| 0 < i <= |s| && sub <= s[i..] {
        assert s[1..][i - 1..] == s[i..];
      }
    }
  }

  function ToLower(c: char): char {
    if 'A' <= c <= 'Z' then ((c as int) + 32) as char else c
  }

  /** `strings.ToLower` on the ASCII letters; no other letter folds to one that the gateway compares with. */
  function Lowered(s: string): string {
    seq(|s|, i requires 0 <= i < |s| => ToLower(s[i]))
  }

  function ReplaceChar(s: string, from: char, to: char): (r: string)
    ensures |r| == |s|
    ensures forall i | 0 <= i < |s| :: r[i] == if s[i] == from then to else s[i]
  {
    seq(|s|, i requires 0 <= i < |s| => if s[i] == from then to else s[i])
  }

  // ----- split and join on one character -----

  function Split(s: string, sep: char): (parts: seq<string>)
    ensures |parts| >= 1
    ensures forall p | p in parts :: sep !in p
  {
    if s == "" then [""] else Prepend(s[0], Split(s[1..], sep), sep)
  }

  /** The parts of `[c] + s`, given the parts of `s`. */
  function Prepend(c: char, parts: seq<string>, sep: char): (r: seq<string>)
    requires |parts| >= 1
    ensures |r| >= 1
  {
    if c == sep then [""] + parts else [[c] + parts[0]] + parts[1..]
  }

  function Join(parts: seq<string>, sep: char): string {
    if |parts| == 0 then ""
    else if |parts| == 1 then parts[0]
    else parts[0] + [sep] + Join(parts[1..], sep)
  }

  /** Join inverts Split on every string. */
  lemma {:induction false} JoinSplit(s: string, sep: char)
    ensures Join(Split(s, sep), sep) == s
  {
    if s != "" {
      JoinSplit(s[1..], sep);
      var rest := Split(s[1..], sep);
      if s[0] == sep {
        assert ([""] + rest)[1..] == rest;
      } else {
        var parts := [[s[0]] + rest[0]] + rest[1..];
        assert parts[1..] == rest[1..];
        if |rest| > 1 {
          assert [s[0]] + (rest[0] + [sep] + Join(rest[1..], sep))
              == ([s[0]] + rest[0]) + [sep] + Join(parts[1..], sep);
        }
      }
      assert s == [s[0]] + s[1..];
    }
  }

  /** A separator-free first part is split off whole. */
  lemma {:induction false} SplitHead(p: string, rest: string, sep: char)
    requires sep !in p
    ensures Split(p + [sep] + rest, sep) == [p] + Split(rest, sep)
  {
    var s := p + [sep] + rest;
    if p == "" {
      assert s[1..] == rest;
    } else {
      SplitHead(p[1..], rest, sep);
      assert s[1..] == p[1..] + [sep] + rest;
      var tail := Split(s[1..], sep);
      assert tail[0] == p[1..] && tail[1..] == Split(rest, sep);
      assert [s[0]] + tail[0] == p;
    }
  }

  lemma {:induction false} SplitWhole(p: string, sep: char)
    requires sep !in p
    ensures Split(p, sep) == [p]
  {
    if p != "" {
      SplitWhole(p[1..], sep);
      assert [p[0]] + p[1..] == p;
    }
  }

  /** Splitting a concatenation around a separator concatenates the splits. */
  lemma {:induction false} SplitAppend(a: string, b: string, sep: char)
    ensures Split(a + [sep] + b, sep) == Split(a, sep) + Split(b, sep)
  {
    var s := a + [sep] + b;
    if a == "" {
      assert s[1..] == b;
    } else {
      assert s[0] == a[0] && s[1..] == a[1..] + [sep] + b;
      SplitAppend(a[1..], b, sep);
      PrependAppend(a[0], Split(a[1..], sep), Split(b, sep), sep);
    }
  }

  lemma PrependAppend(c: char, p: seq<string>, q: seq<string>, sep: char)
    requires |p| >= 1
    ensures Prepend(c, p + q, sep) == Prepend(c, p, sep) + q
  {
    assert c != sep ==> (p + q)[1..] == p[1..] + q;
  }

  // ----- order -----

  predicate Less(a: string, b: string) {
    b != "" && (a == "" || a[0] < b[0] || (a[0] == b[0] && Less(a[1..], b[1..])))
  }

  /** The one is a proper beginning of the other, or smaller where they first differ. */
  ghost predicate Precedes(a: string, b: string) {
    exists k :: 0 <= k <= |a| && k < |b| && a[..k] == b[..k] && (k == |a| || a[k] < b[k])
  }

  lemma {:induction false} LessIff(a: string, b: string)
    ensures Less(a, b) <==> Precedes(a, b)
  {
    if a != "" && b != "" && a[0] == b[0] {
      LessIff(a[1..], b[1..]);
      if Precedes(a[1..], b[1..]) {
        var k :| 0 <= k < |a| && k < |b| - 1 && a[1..][..k] == b[1..][..k] && (k == |a| - 1 || a[1..][k] < b[1..][k]);
        assert a[..k + 1] == [a[0]] + a[1..][..k] && b[..k + 1] == [b[0]] + b[1..][..k];
      }
      if k :| 0 <= k <= |a| && k < |b| && a[..k] == b[..k] && (k == |a| || a[k] < b[k]) {
        assert k > 0;
        assert a[1..][..k - 1] == a[..k][1..] && b[1..][..k - 1] == b[..k][1..];
      }
    } else if Less(a, b) {
      assert a[..0] == b[..0];
    } else {
      forall k | 0 <= k <= |a| && k < |b| ensures !(a[..k] == b[..k] && (k == |a| || a[k] < b[k])) {
        if k > 0 {
          assert a[..k][0] == a[0] && b[..k][0] == b[0];
        }
      }
    }
  }

  lemma {:induction false} LessIrreflexive(a: string)
    ensures !Less(a, a)
  {
    if a != "" { LessIrreflexive(a[1..]); }
  }

  lemma {:induction false} LessTransitive(a: string, b: string, c: string)
    requires Less(a, b) && Less(b, c)
    ensures Less(a, c)
  {
    if a != "" && a[0] == b[0] && b[0] == c[0] { LessTransitive(a[1..], b[1..], c[1..]); }
  }

  lemma {:induction false} LessTotal(a: string, b: string)
    ensures Less(a, b) || a == b || Less(b, a)
  {
    if a != "" && b != "" && a[0] == b[0] {
      LessTotal(a[1..], b[1..]);
      assert a == [a[0]] + a[1..] && b == [b[0]] + b[1..];
    }
  }

  // ----- decimal numbers -----

  const MAX_INT := 0x7FFF_FFFF_FFFF_FFFF

  predicate IsDigit(c: char) { '0' <= c <= '9' }

  predicate AllDigits(s: string) { forall i | 0 <= i < |s| :: IsDigit(s[i]) }

  function Value(s: string): nat
    requires AllDigits(s)
  {
    if s == "" then 0 else 10 * Value(s[..|s| - 1]) + (s[|s| - 1] as int - '0' as int)
  }

  /** `strconv.Atoi` on a 64-bit platform: optional sign, decimal digits, int64 range. */
  function Atoi(s: string): Option<int> {
    var signed := s != "" && (s[0] == '+' || s[0] == '-');
    var digits := if signed then s[1..] else s;
    if digits == "" || !AllDigits(digits) then None
    else
      var v := if signed && s[0] == '-' then -(Value(digits) as int) else Value(digits);
      if -MAX_INT - 1 <= v <= MAX_INT then Some(v) else None
  }

  function Itoa(n: nat): (s: string)
    ensures s != "" && AllDigits(s)
  {
    var last := [('0' as int + n % 10) as char];
    if n < 10 then last else Itoa(n / 10) + last
  }

  /** Every cursor a client can print is read back as the same number. */
  lemma {:induction false} AtoiItoa(n: nat)
    requires n <= MAX_INT
    ensures Atoi(Itoa(n)) == Some(n)
  {
    ValueItoa(n);
    assert IsDigit(Itoa(n)[0]);
  }

  lemma {:induction false} ValueItoa(n: nat)
    ensures Value(Itoa(n)) == n
  {
    var s := Itoa(n);
    if n < 10 {
      assert s[..0] == "";
    } else {
      ValueItoa(n / 10);
      assert s[..|s| - 1] == Itoa(n / 10);
    }
  }

  /** The numeral of `n`: an optional plus sign, or for zero a minus sign, then any zeros, then the digits of `n`. */
  ghost predicate Denotes(s: string, n: nat) {
    exists sign, zeros ::
      && s == sign + zeros + Itoa(n)
      && (sign == "" || sign == "+" || (sign == "-" && n == 0))
      && Zeros(zeros)
  }

  predicate Zeros(s: string) {
    forall i | 0 <= i < |s| :: s[i] == '0'
  }

  /** `Atoi` reads exactly the numerals, as far as int64 goes. */
  lemma AtoiIff(s: string, n: nat)
    requires s != ""
    ensures Atoi(s) == Some(n) <==> n <= MAX_INT && Denotes(s, n)
  {
    hide Denotes;
    var signed := s[0] == '+' || s[0] == '-';
    var digits := if signed then s[1..] else s;
    if Atoi(s) == Some(n) {
      var zeros := LeadingZeros(digits);
      var sign := if signed then [s[0]] else "";
      assert s == sign + zeros + Itoa(n) by { assert s == sign + digits; }
      Denoting(s, n, sign, zeros);
    }
    if Denotes(s, n) {
      DenotesReads(s, n);
    }
  }

  lemma Denoting(s: string, n: nat, sign: string, zeros: string)
    requires s == sign + zeros + Itoa(n) && Zeros(zeros)
    requires sign == "" || sign == "+" || (sign == "-" && n == 0)
    ensures Denotes(s, n)
  {
    hide Itoa, Zeros;
  }

  lemma DenotesReads(s: string, n: nat)
    requires Denotes(s, n)
    ensures n <= MAX_INT ==> Atoi(s) == Some(n)
  {
    hide Itoa, Value, Atoi;
    var sign, zeros :|
      && s == sign + zeros + Itoa(n)
      && (sign == "" || sign == "+" || (sign == "-" && n == 0))
      && Zeros(zeros);
    ValueOfPadded(zeros, Itoa(n));
    ValueItoa(n);
    SignedReads(sign, zeros + Itoa(n), n);
    assert s == sign + (zeros + Itoa(n));
  }

  lemma SignedReads(sign: string, digits: string, n: nat)
    requires digits != "" && AllDigits(digits) && Value(digits) == n
    requires sign == "" || sign == "+" || (sign == "-" && n == 0)
    ensures n <= MAX_INT ==> Atoi(sign + digits) == Some(n)
  {
    hide Value;
    var s := sign + digits;
    assert IsDigit(digits[0]);
    if sign == "" {
      assert s == digits;
    } else {
      assert s[0] == sign[0] && s[1..] == digits;
    }
  }

  lemma {:induction false} ValueOfPadded(zeros: string, digits: string)
    requires Zeros(zeros) && AllDigits(digits)
    ensures AllDigits(zeros + digits) && Value(zeros + digits) == Value(digits)
    decreases |zeros| + |digits|
  {
    var all := zeros + digits;
    if digits != "" {
      var n := |digits| - 1;
      assert all[..|all| - 1] == zeros + digits[..n];
      ValueOfPadded(zeros, digits[..n]);
    } else if zeros != "" {
      var m := |zeros| - 1;
      assert all == zeros && all[..m] == zeros[..m] + "";
      ValueOfPadded(zeros[..m], "");
    }
  }

  /** A nonempty string of digits is the number it stands for, after some zeros. */
  lemma {:induction false} LeadingZeros(digits: string) returns (zeros: string)
    requires digits != "" && AllDigits(digits)
    ensures Zeros(zeros) && digits == zeros + Itoa(Value(digits))
  {
    var n := |digits| - 1;
    var front, last := digits[..n], digits[n];
    var d := last as int - '0' as int;
    assert digits == front + [last];
    if n == 0 {
      zeros := "";
      assert Value(front) == 0;
      assert Itoa(d) == [last];
    } else {
      var z := LeadingZeros(front);
      if Value(front) == 0 {
        zeros := front;
        assert Itoa(0) == "0" && front == z + "0";
        assert Itoa(d) == [last];
      } else {
        zeros := z;
        assert Value(digits) / 10 == Value(front) && Value(digits) % 10 == d;
        assert Itoa(Value(digits)) == Itoa(Value(front)) + [last];
      }
    }
  }
}
