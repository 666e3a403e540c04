/** Facts about sequences as bags. */
module Sequences {

  function Without<T>(s: seq<T>, i: nat): seq<T>
    requires i < |s|
  {
    s[..i] + s[i + 1..]
  }

  lemma WithoutOne<T>(s: seq<T>, i: nat)
    requires i < |s|
    ensures multiset(s) == multiset(Without(s, i)) + multiset{s[i]}
  {
    assert s == s[..i] + [s[i]] + s[i + 1..];
  }

  lemma HeadAndTail<T>(s: seq<T>)
    requires s != []
    ensures multiset(s) == multiset{s[0]} + multiset(s[1..])
  {
    assert s == [s[0]] + s[1..];
  }

  lemma CutInTwo<T>(s: seq<T>, n: nat)
    requires n <= |s|
    ensures multiset(s) == multiset(s[..n]) + multiset(s[n..])
  {
    assert s == s[..n] + s[n..];
  }

  lemma TwiceCounted<T>(s: seq<T>, i: nat, j: nat)
    requires i < j < |s| && s[i] == s[j]
    ensures multiset(s)[s[i]] >= 2
  {
    assert s == s[..i] + s[i..];
    CutInTwo(s, j);
    assert s[..j][i] in multiset(s[..j]) && s[j..][0] in multiset(s[j..]);
  }

  lemma SameMembers<T>(s: seq<T>, t: seq<T>, x: T)
    requires multiset(s) == multiset(t)
    ensures x in s <==> x in t
  {
    assert x in s <==> x in multiset(s);
    assert x in t <==> x in multiset(t);
  }

  lemma InGrown<T>(s: seq<T>, t: seq<T>, c: T, x: T)
    requires multiset(t) == multiset(s) + multiset{c}
    ensures x in t <==> x in s || x == c
  {
    assert x in t <==> x in multiset(t);
    assert x in s <==> x in multiset(s);
  }

  lemma SameWithoutOne<T>(s: seq<T>, t: seq<T>, c: T)
    requires multiset(s) + multiset{c} == multiset(t) + multiset{c}
    ensures multiset(s) == multiset(t)
  {
    assert multiset(s) == multiset(s) + multiset{c} - multiset{c};
    assert multiset(t) == multiset(t) + multiset{c} - multiset{c};
  }
}
