/** The few string operations the sources rely on: splitting, joining, containment. */
module Text {

  /** s.split(sep): always at least one part, possibly empty ones. */
  function Split(s: string, sep: char): (parts: seq<string>)
    ensures |parts| >= 1
  {
    if s == [] then [[]]
    else
      var rest := Split(s[1..], sep);
      if s[0] == sep then [[]] + rest else [[s[0]] + rest[0]] + rest[1..]
  }

  /** sep.join(parts) */
  function Join(parts: seq<string>, sep: char): string {
    if parts == [] then []
    else if |parts| == 1 then parts[0]
    else parts[0] + [sep] + Join(parts[1..], sep)
  }

  predicate Without(s: string, c: char) {
    forall k :: 0 <= k < |s| ==> s[k] != c
  }

  predicate AllWithout(parts: seq<string>, sep: char) {
    forall k :: 0 <= k < |parts| ==> Without(parts[k], sep)
  }

  /** `sub in s` */
  predicate Contains(s: string, sub: string) {
    exists k :: 0 <= k <= |s| && sub <= s[k..]
  }

  lemma {:induction false} SplitOfPart(s: string, sep: char)
    requires Without(s, sep)
    ensures Split(s, sep) == [s]
  {
    if s != [] {
      assert Without(s[1..], sep) by {
        forall k | 0 <= k < |s[1..]| ensures s[1..][k] != sep { assert s[1..][k] == s[k + 1]; }
      }
      SplitOfPart(s[1..], sep);
      assert [s[0]] + s[1..] == s;
    }
  }

  /** Splitting at a separator that follows a separator-free head takes the head off. */
  lemma {:induction false} SplitAfterHead(head: string, tail: string, sep: char)
    requires Without(head, sep)
    ensures Split(head + [sep] + tail, sep) == [head] + Split(tail, sep)
  {
    var s := head + [sep] + tail;
    if head == [] {
      assert s[1..] == tail;
    } else {
      var rest := head[1..];
      assert Without(rest, sep) by {
        forall k | 0 <= k < |rest| ensures rest[k] != sep { assert rest[k] == head[k + 1]; }
      }
      SplitAfterHead(rest, tail, sep);
      assert s[1..] == rest + [sep] + tail;
      assert [head[0]] + rest == head;
    }
  }

  /** The parts of a string with one more character in front. */
  function Prepend(c: char, parts: seq<string>, sep: char): seq<string>
    requires parts != []
  {
    if c == sep then [[]] + parts else [[c] + parts[0]] + parts[1..]
  }

  lemma PrependConcat(c: char, rest: seq<string>, tail: seq<string>, sep: char)
    requires rest != []
    ensures Prepend(c, rest + tail, sep) == Prepend(c, rest, sep) + tail
  {
    assert (rest + tail)[1..] == rest[1..] + tail;
  }

  lemma {:induction false} SplitConcat(left: string, right: string, sep: char)
    ensures Split(left + [sep] + right, sep) == Split(left, sep) + Split(right, sep)
  {
    var s := left + [sep] + right;
    if left == [] {
      assert s[1..] == right;
    } else {
      SplitConcat(left[1..], right, sep);
      assert s[1..] == left[1..] + [sep] + right;
      var rest, tail := Split(left[1..], sep), Split(right, sep);
      assert Split(s, sep) == Prepend(left[0], rest + tail, sep) && Split(left, sep) == Prepend(left[0], rest, sep);
      PrependConcat(left[0], rest, tail, sep);
    }
  }

  lemma {:induction false} SplitParts(s: string, sep: char)
    ensures AllWithout(Split(s, sep), sep)
  {
    if s != [] {
      SplitParts(s[1..], sep);
    }
  }

  lemma {:induction false} JoinSplit(s: string, sep: char)
    ensures Join(Split(s, sep), sep) == s
  {
    if s != [] {
      var rest := Split(s[1..], sep);
      JoinSplit(s[1..], sep);
      if s[0] == sep {
        assert ([[]] + rest)[1..] == rest;
        assert [sep] + s[1..] == s;
      } else {
        var parts := [[s[0]] + rest[0]] + rest[1..];
        assert parts[1..] == rest[1..];
        assert s == [s[0]] + s[1..];
        if |rest| > 1 {
          assert Join(parts, sep) == [s[0]] + (rest[0] + [sep] + Join(rest[1..], sep));
        }
      }
    }
  }

  lemma {:induction false} SplitJoin(parts: seq<string>, sep: char)
    requires parts != [] && AllWithout(parts, sep)
    ensures Split(Join(parts, sep), sep) == parts
  {
    if |parts| == 1 {
      SplitOfPart(parts[0], sep);
    } else {
      SplitJoin(parts[1..], sep);
      SplitAfterHead(parts[0], Join(parts[1..], sep), sep);
      assert [parts[0]] + parts[1..] == parts;
    }
  }

  // ---- Characters ----

  const SMALL: string := "abcdefghijklmnopqrstuvwxyz"
  const CAPITAL: string := "ABCDEFGHIJKLMNOPQRSTUVWXYZ"
  const DIGITS: string := "0123456789"

  lemma SmallLetters(c: char)
    ensures c in SMALL <==> 'a' <= c <= 'z'
  {
    if 'a' <= c <= 'z' {
      assert SMALL[c as int - 97] == c;
    }
  }

  lemma CapitalLetters(c: char)
    ensures c in CAPITAL <==> 'A' <= c <= 'Z'
  {
    if 'A' <= c <= 'Z' {
      assert CAPITAL[c as int - 65] == c;
    }
  }

  lemma DecimalDigits(c: char)
    ensures c in DIGITS <==> '0' <= c <= '9'
  {
    if '0' <= c <= '9' {
      assert DIGITS[c as int - 48] == c;
    }
  }
}
