/** The string operations of the source, with the properties that the models need. */
module Strings {

  /** `s.includes(sub)`. */
  predicate Includes(s: string, sub: string) {
    |s| >= |sub| && (s[..|sub|] == sub || (s != [] && Includes(s[1..], sub)))
  }

  lemma {:induction false} IncludesAt(s: string, sub: string)
    ensures Includes(s, sub) <==> exists i: nat :: OccursAt(s, sub, i)
  {
    if OccursAt(s, sub, 0) {
    } else if |s| >= |sub| && s != [] {
      IncludesAt(s[1..], sub);
      if i: nat :| OccursAt(s[1..], sub, i) {
        assert OccursAt(s, sub, i + 1);
      }
      if i: nat :| OccursAt(s, sub, i) {
        assert OccursAt(s[1..], sub, i - 1);
      }
    }
  }

  predicate OccursAt(s: string, sub: string, i: nat) {
    i + |sub| <= |s| && s[i..][..|sub|] == sub
  }

  /** `s.split(c)`. */
  function Split(s: string, c: char): (r: seq<string>)
    ensures r != []
  {
    if s == [] then [""]
    else
      var rest := Split(s[1..], c);
      if s[0] == c then [""] + rest else [[s[0]] + rest[0]] + rest[1..]
  }

  /** `r.join(c)`. */
  function Join(r: seq<string>, c: char): string
    requires r != []
  {
    if |r| == 1 then r[0] else r[0] + [c] + Join(r[1..], c)
  }

  function Occurrences(s: string, c: char): nat {
    if s == [] then 0 else Occurrences(s[1..], c) + if s[0] == c then 1 else 0
  }

  lemma {:induction false} OccurrencesConcat(a: string, b: string, c: char)
    ensures Occurrences(a + b, c) == Occurrences(a, c) + Occurrences(b, c)
  {
    if a == [] {
      assert a + b == b;
    } else {
      OccurrencesConcat(a[1..], b, c);
      assert (a + b)[1..] == a[1..] + b;
    }
  }

  lemma {:induction false} NoOccurrences(s: string, c: char)
    ensures Occurrences(s, c) == 0 <==> c !in s
  {
    if s != [] {
      NoOccurrences(s[1..], c);
      assert s == [s[0]] + s[1..];
    }
  }

  /** Splitting keeps everything, leaves no separator in a part, and yields one part more than
      there are separators. */
  lemma {:induction false} SplitThenJoin(s: string, c: char)
    ensures Join(Split(s, c), c) == s
    ensures forall part :: part in Split(s, c) ==> c !in part
    ensures |Split(s, c)| == Occurrences(s, c) + 1
  {
    if s != [] {
      SplitThenJoin(s[1..], c);
      var rest := Split(s[1..], c);
      if s[0] == c {
        assert Split(s, c)[1..] == rest;
        assert [c] + s[1..] == s;
      } else {
        var r := [[s[0]] + rest[0]] + rest[1..];
        assert r[1..] == rest[1..];
        assert s == [s[0]] + s[1..];
        if |rest| > 1 {
          assert ([s[0]] + rest[0]) + [c] + Join(rest[1..], c) == [s[0]] + (rest[0] + [c] + Join(rest[1..], c));
        }
      }
    }
  }

  /** The part before a separator comes first, and the rest is split on its own. */
  lemma {:induction false} SplitAfter(a: string, b: string, c: char)
    requires c !in a
    ensures Split(a + [c] + b, c) == [a] + Split(b, c)
  {
    var s := a + [c] + b;
    if a == [] {
      assert s == [c] + b && s[1..] == b;
    } else {
      assert a == [a[0]] + a[1..];
      SplitAfter(a[1..], b, c);
      assert s[1..] == a[1..] + [c] + b;
      assert Split(s, c) == [[a[0]] + a[1..]] + ([a[1..]] + Split(b, c))[1..];
    }
  }

  lemma {:induction false} SplitOfPart(a: string, c: char)
    ensures c !in a ==> Split(a, c) == [a]
    ensures c in a ==> |Split(a, c)| > 1
  {
    if a != [] {
      SplitOfPart(a[1..], c);
      assert a == [a[0]] + a[1..];
    }
  }
}
