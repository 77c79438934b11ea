/** The parts of Go's `strings` package that the models use. */
module Strings {

  /** `strings.Split(s, sep)` for a separator of one character. */
  function Split(s: string, sep: char): (parts: seq<string>)
    ensures parts != []
  {
    if s == "" then [""]
    else
      var rest := Split(s[1..], sep);
      if s[0] == sep then [""] + rest else [[s[0]] + rest[0]] + rest[1..]
  }

  function Joined(parts: seq<string>, sep: char): string
    requires parts != []
  {
    if |parts| == 1 then parts[0] else parts[0] + [sep] + Joined(parts[1..], sep)
  }

  /** The parts have no separator in them and give the string back when joined. */
  lemma {:induction false} SplitInverse(s: string, sep: char)
    ensures Joined(Split(s, sep), sep) == s
    ensures forall part <- Split(s, sep) :: sep !in part
  {
    if s != "" {
      SplitInverse(s[1..], sep);
      var parts, rest := Split(s, sep), Split(s[1..], sep);
      assert s == [s[0]] + s[1..];
      if s[0] == sep {
        assert parts[1..] == rest;
      } else {
        assert parts[1..] == rest[1..];
        forall part | part in parts
          ensures sep !in part
        {
          if part != parts[0] {
            assert part in rest;
          }
        }
      }
    }
  }

  lemma SplitParts(s: string, sep: char)
    ensures |Split(s, sep)| == 1 ==> s == Split(s, sep)[0]
    ensures |Split(s, sep)| == 2 ==> s == Split(s, sep)[0] + [sep] + Split(s, sep)[1]
    ensures forall part <- Split(s, sep) :: sep !in part
  {
    SplitInverse(s, sep);
    var parts := Split(s, sep);
    if |parts| == 2 {
      assert Joined(parts[1..], sep) == parts[1];
    }
  }

  lemma {:induction false} SplitWithout(s: string, sep: char)
    requires sep !in s
    ensures Split(s, sep) == [s]
  {
    if s != "" {
      assert forall c :: c in s[1..] ==> c in s;
      SplitWithout(s[1..], sep);
      assert s == [s[0]] + s[1..];
    }
  }

  lemma {:induction false} SplitAtFirst(a: string, sep: char, b: string)
    requires sep !in a
    ensures Split(a + [sep] + b, sep) == [a] + Split(b, sep)
  {
    var s := a + [sep] + b;
    if a == "" {
      assert s[0] == sep && s[1..] == b;
    } else {
      assert s[1..] == a[1..] + [sep] + b;
      assert forall c :: c in a[1..] ==> c in a;
      SplitAtFirst(a[1..], sep, b);
      assert a == [a[0]] + a[1..];
    }
  }

  /** `strings.Trim(s, " ")` */
  function TrimSpaces(s: string): string {
    if s != "" && s[0] == ' ' then TrimSpaces(s[1..])
    else if s != "" && s[|s| - 1] == ' ' then TrimSpaces(s[..|s| - 1])
    else s
  }

  /** `strings.TrimSuffix(s, "=")` */
  function TrimEquals(s: string): string {
    if s != "" && s[|s| - 1] == '=' then s[..|s| - 1] else s
  }
}
