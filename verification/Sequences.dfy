/** The array operations of the source, as functions on sequences: find, filter and
    the "keep what has not been seen yet" filter that two components share. */
module Sequences {

  datatype Option<+T> = None | Some(value: T)

  /** The operator `??`. */
  function OrElse<T>(o: Option<T>, other: T): T {
    if o.Some? then o.value else other
  }

  function OrElseOption<T>(o: Option<T>, other: Option<T>): Option<T> {
    if o.Some? then o else other
  }

  /** An optional string that a JavaScript condition treats as true: present and not empty. */
  predicate Truthy(o: Option<string>) {
    o.Some? && o.value != ""
  }

  /** `String.prototype.includes`. */
  predicate Includes(text: string, part: string) {
    exists i :: 0 <= i <= |text| && part <= text[i..]
  }

  /** The part stands somewhere in the text. */
  ghost predicate Contains(text: string, part: string) {
    exists before, after :: text == before + part + after
  }

  lemma IncludesExactly(text: string, part: string)
    ensures Includes(text, part) <==> Contains(text, part)
  {
    if Includes(text, part) {
      var i :| 0 <= i <= |text| && part <= text[i..];
      SplitAt(text, part, i);
    }
    if Contains(text, part) {
      var before, after :| text == before + part + after;
      Joined(before, part, after);
    }
  }

  lemma SplitAt(text: string, part: string, i: nat)
    requires i <= |text| && part <= text[i..]
    ensures Contains(text, part)
  {
    var before, rest := text[..i], text[i..];
    assert text == before + rest;
    assert rest == part + rest[|part|..];
    assert before + (part + rest[|part|..]) == before + part + rest[|part|..];
  }

  lemma Joined(before: string, part: string, after: string)
    ensures Includes(before + part + after, part)
  {
    var text := before + part + after;
    assert text[|before|..] == part + after;
    assert part <= text[|before|..];
  }

  lemma ContainsMore(text: string, whole: string, part: string)
    requires Contains(text, whole) && Contains(whole, part)
    ensures Contains(text, part)
  {
    var before, after :| text == before + whole + after;
    var front, back :| whole == front + part + back;
    assert text == (before + front) + part + (back + after);
  }

  /** `Array.prototype.find`. */
  function Find<T>(s: seq<T>, wanted: T -> bool): (r: Option<T>)
    ensures r.None? <==> forall x :: x in s ==> !wanted(x)
    ensures r.Some? ==> r.value in s && wanted(r.value)
  {
    if s == [] then None
    else if wanted(s[0]) then Some(s[0])
    else Find(s[1..], wanted)
  }

  lemma {:induction false} FindIsFirst<T>(s: seq<T>, wanted: T -> bool)
    requires Find(s, wanted).Some?
    ensures exists i :: 0 <= i < |s| && s[i] == Find(s, wanted).value && wanted(s[i])
                        && forall j :: 0 <= j < i ==> !wanted(s[j])
  {
    if !wanted(s[0]) {
      FindIsFirst(s[1..], wanted);
      var k :| 0 <= k < |s[1..]| && s[1..][k] == Find(s, wanted).value && wanted(s[1..][k])
               && forall j :: 0 <= j < k ==> !wanted(s[1..][j]);
      assert forall j :: 1 <= j < k + 1 ==> s[j] == s[1..][j - 1];
      assert s[k + 1] == s[1..][k];
    }
  }

  /** `Array.prototype.filter`. */
  function Filter<T>(s: seq<T>, keep: T -> bool): (r: seq<T>)
    ensures forall x :: x in r ==> x in s && keep(x)
    ensures forall x :: x in s && keep(x) ==> x in r
  {
    if s == [] then []
    else if keep(s[0]) then [s[0]] + Filter(s[1..], keep)
    else Filter(s[1..], keep)
  }

  /** A filter keeps the order of its input, and every repetition. */
  lemma {:induction false} FilterOfSum<T>(a: seq<T>, b: seq<T>, keep: T -> bool)
    ensures Filter(a + b, keep) == Filter(a, keep) + Filter(b, keep)
  {
    if a == [] {
      assert a + b == b;
    } else {
      assert (a + b)[0] == a[0] && (a + b)[1..] == a[1..] + b;
      FilterOfSum(a[1..], b, keep);
    }
  }

  /** No two entries of `s` carry the same key. */
  predicate Distinct<T, K(==)>(s: seq<T>, key: T -> K) {
    forall i, j :: 0 <= i < j < |s| ==> key(s[i]) != key(s[j])
  }

  predicate HasKey<T, K(==)>(s: seq<T>, key: T -> K, k: K) {
    exists i :: 0 <= i < |s| && key(s[i]) == k
  }

  lemma {:induction false} FilterKeepsDistinct<T, K>(s: seq<T>, keep: T -> bool, key: T -> K)
    requires Distinct(s, key)
    ensures Distinct(Filter(s, keep), key)
  {
    if s != [] {
      var rest := Filter(s[1..], keep);
      FilterKeepsDistinct(s[1..], keep, key);
      forall i | 0 <= i < |rest| ensures key(s[0]) != key(rest[i]) {
        assert rest[i] in s[1..];
      }
    }
  }

  /** In order, the entries of `s` whose key no earlier entry has. */
  function FirstBy<T, K(==)>(s: seq<T>, key: T -> K): seq<T> {
    if s == [] then []
    else
      var front, last := s[..|s| - 1], s[|s| - 1];
      if HasKey(front, key, key(last)) then FirstBy(front, key) else FirstBy(front, key) + [last]
  }

  lemma HasKeySnoc<T, K>(front: seq<T>, last: T, key: T -> K, k: K)
    ensures HasKey(front + [last], key, k) <==> HasKey(front, key, k) || key(last) == k
  {
    assert (front + [last])[|front|] == last;
    assert forall i :: 0 <= i < |front| ==> (front + [last])[i] == front[i];
  }

  /** One more entry, one more step of FirstBy. */
  lemma FirstBySnoc<T, K>(front: seq<T>, last: T, key: T -> K)
    ensures FirstBy(front + [last], key) ==
            if HasKey(front, key, key(last)) then FirstBy(front, key) else FirstBy(front, key) + [last]
  {
    assert (front + [last])[..|front|] == front;
  }

  lemma HasKeySum<T, K>(a: seq<T>, b: seq<T>, key: T -> K, k: K)
    ensures HasKey(a + b, key, k) <==> HasKey(a, key, k) || HasKey(b, key, k)
  {
    assert forall i :: 0 <= i < |a| ==> (a + b)[i] == a[i];
    assert forall i :: 0 <= i < |b| ==> (a + b)[|a| + i] == b[i];
  }

  /** What FirstBy keeps of more input: what it kept, and what it keeps of the rest under a key that is new. */
  lemma {:induction false} FirstByOfSum<T, K>(a: seq<T>, b: seq<T>, key: T -> K, x: T)
    ensures x in FirstBy(a + b, key) <==> x in FirstBy(a, key) || (x in FirstBy(b, key) && !HasKey(a, key, key(x)))
  {
    if b == [] {
      assert a + b == a;
    } else {
      var front, last := b[..|b| - 1], b[|b| - 1];
      assert a + b == (a + front) + [last];
      FirstByOfSum(a, front, key, x);
      FirstBySnoc(a + front, last, key);
      FirstBySnoc(front, last, key);
      assert b == front + [last];
      HasKeySum(a, front, key, key(last));
    }
  }

  /** FirstBy keeps exactly the entries no earlier entry shares its key with. */
  lemma {:induction false} FirstByMembers<T, K>(s: seq<T>, key: T -> K, x: T)
    ensures x in FirstBy(s, key) <==> exists p :: 0 <= p < |s| && s[p] == x && !HasKey(s[..p], key, key(x))
  {
    if s != [] {
      var front, n := s[..|s| - 1], |s| - 1;
      FirstByMembers(front, key, x);
      assert forall p :: 0 <= p < n ==> front[..p] == s[..p];
    }
  }

  /** Every key of `s` is still there, and now only once. */
  lemma {:induction false} FirstByDistinct<T, K>(s: seq<T>, key: T -> K)
    ensures Distinct(FirstBy(s, key), key)
    ensures forall k :: HasKey(FirstBy(s, key), key, k) <==> HasKey(s, key, k)
  {
    if s != [] {
      var front, last := s[..|s| - 1], s[|s| - 1];
      FirstByDistinct(front, key);
      var kept := FirstBy(front, key);
      assert forall k :: HasKey(s, key, k) <==> HasKey(front, key, k) || key(last) == k by {
        assert forall i :: 0 <= i < |front| ==> front[i] == s[i];
      }
      if !HasKey(front, key, key(last)) {
        var r := kept + [last];
        assert forall i :: 0 <= i < |kept| ==> r[i] == kept[i];
        assert forall k :: HasKey(r, key, k) <==> HasKey(kept, key, k) || key(last) == k by {
          assert r[|kept|] == last;
        }
        assert forall i :: 0 <= i < |kept| ==> HasKey(kept, key, key(kept[i]));
      }
    }
  }

  /** Reading more of the input only appends: the entries kept stay in input order. */
  lemma {:induction false} FirstByGrows<T, K>(s: seq<T>, key: T -> K, n: nat)
    requires n <= |s|
    ensures FirstBy(s[..n], key) <= FirstBy(s, key)
  {
    if n == |s| {
      assert s[..n] == s;
    } else {
      var front := s[..|s| - 1];
      FirstByGrows(front, key, n);
      assert front[..n] == s[..n];
    }
  }

  lemma {:induction false} FirstByOfDistinct<T, K>(s: seq<T>, key: T -> K)
    requires Distinct(s, key)
    ensures FirstBy(s, key) == s
  {
    if s != [] {
      FirstByOfDistinct(s[..|s| - 1], key);
    }
  }

  lemma FirstByIdempotent<T, K>(s: seq<T>, key: T -> K)
    ensures FirstBy(FirstBy(s, key), key) == FirstBy(s, key)
    ensures s != [] ==> FirstBy(s, key) != []
  {
    FirstByDistinct(s, key);
    FirstByOfDistinct(FirstBy(s, key), key);
    if s != [] {
      assert HasKey(s, key, key(s[0]));
    }
  }
}
