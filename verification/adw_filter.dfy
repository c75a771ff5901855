/** The record filter of the Animal Diversity Web provider
    (AnimalDiversityWeb.py, lines 29-35): of the tab-separated index lines, keep
    those whose first field is a URL under one of the three content paths that
    hold images. */
module AdwFilter {
  const Tab: char := '\t'

  /** `line.split('\t')[0]`: everything before the first tab, or the whole line. */
  function FirstField(line: string): (f: string)
    ensures f <= line
    ensures Tab !in f
    ensures |f| == |line| || line[|f|] == Tab
  {
    if |line| == 0 || line[0] == Tab then [] else [line[0]] + FirstField(line[1..])
  }

  /** The three content paths of the site, prefixed by its domain. */
  function AllowedPrefixes(domain: string): seq<string> {
    [domain + "/accounts/", domain + "/collections/", domain + "/site/"]
  }

  /** `s.startswith(tuple(prefixes))`. */
  predicate StartsWithAny(s: string, prefixes: seq<string>) {
    exists p :: p in prefixes && p <= s
  }

  /** The test applied to one line. */
  predicate Keep(domain: string, line: string) {
    StartsWithAny(FirstField(line), AllowedPrefixes(domain))
  }

  /** `a` is `b` with some elements deleted, the rest in their original order. */
  predicate IsSubsequence<T(==)>(a: seq<T>, b: seq<T>)
    decreases |b|
  {
    && |a| <= |b|
    && (|a| == 0 || (a[0] == b[0] && IsSubsequence(a[1..], b[1..])) || IsSubsequence(a, b[1..]))
  }

  /** `filter(keep, data)`: the kept lines, in order, each as often as in `data`. */
  function Filter(domain: string, data: seq<string>): (r: seq<string>)
    ensures IsSubsequence(r, data)
    ensures forall x :: x in r ==> Keep(domain, x)
    ensures forall x :: Keep(domain, x) ==> multiset(r)[x] == multiset(data)[x]
  {
    if |data| == 0 then []
    else
      var rest := Filter(domain, data[1..]);
      assert data == [data[0]] + data[1..];
      if Keep(domain, data[0]) then [data[0]] + rest else rest
  }

  /** The provider's state; the fields besides `domain` and `data` live in the
      `Provider` base class and are not modelled. */
  datatype Provider = Provider(name: string, domain: string, ccIndex: string, data: seq<string>)

  /** `filterData(_data, _condition)`: stores the filtered lines in `self.data`
      and returns them; `_condition` is accepted and never read. */
  function FilterData<C>(self: Provider, data: seq<string>, condition: C): (r: (Provider, seq<string>))
    ensures r.1 == Filter(self.domain, data)
    ensures r.0.data == r.1
    ensures r.0.name == self.name && r.0.domain == self.domain && r.0.ccIndex == self.ccIndex
  {
    var kept := Filter(self.domain, data);
    (self.(data := kept), kept)
  }

  /** The result does not depend on the condition argument. */
  lemma FilterDataIgnoresCondition<C>(self: Provider, data: seq<string>, c1: C, c2: C)
    ensures FilterData(self, data, c1) == FilterData(self, data, c2)
    ensures FilterData(self, data, c1).1 == Filter(self.domain, data)
  {
  }

  /** A list whose lines all pass comes back unchanged. */
  lemma {:induction false} FilterKeepsKeptLines(domain: string, data: seq<string>)
    requires forall x :: x in data ==> Keep(domain, x)
    ensures Filter(domain, data) == data
  {
    if |data| > 0 {
      assert data[0] in data;
      assert forall x :: x in data[1..] ==> x in data;
      FilterKeepsKeptLines(domain, data[1..]);
    }
  }

  /** Filtering twice is filtering once. */
  lemma FilterIdempotent(domain: string, data: seq<string>)
    ensures Filter(domain, Filter(domain, data)) == Filter(domain, data)
  {
    FilterKeepsKeptLines(domain, Filter(domain, data));
  }

  lemma {:induction false} PrefixOfPrefix(p: string, f: string, line: string)
    requires p <= line && f <= line && |p| <= |f|
    ensures p <= f
  {
    assert p == line[..|p|] && f == line[..|f|];
    assert f[..|p|] == line[..|p|];
  }

  /** The first field starts with a prefix exactly when the line does and the
      prefix holds no tab: only the text before the first tab is inspected. */
  lemma FirstFieldStartsWith(p: string, line: string)
    ensures p <= FirstField(line) <==> p <= line && Tab !in p
  {
    var f := FirstField(line);
    if p <= line && Tab !in p {
      PrefixOfPrefix(p, f, line);
    }
    if p <= f {
      assert forall i :: 0 <= i < |p| ==> p[i] == f[i];
    }
  }

  /** A line passes exactly when it starts with an allowed prefix that contains
      no tab. */
  lemma KeepIffLineStartsWith(domain: string, line: string)
    ensures Keep(domain, line) <==> exists p :: p in AllowedPrefixes(domain) && p <= line && Tab !in p
  {
    forall p | p in AllowedPrefixes(domain)
      ensures p <= FirstField(line) <==> p <= line && Tab !in p
    {
      FirstFieldStartsWith(p, line);
    }
  }

  /** A line without a tab is tested as a whole. */
  lemma NoTabLineTestedWhole(domain: string, line: string)
    requires Tab !in line
    ensures Keep(domain, line) <==> StartsWithAny(line, AllowedPrefixes(domain))
  {
    assert FirstField(line) == line;
  }

  /** What follows the first tab is ignored: an allowed URL in a later field
      does not save the line, and a passing first field is not spoiled. */
  lemma LaterFieldsIgnored(domain: string, first: string, rest: string)
    requires Tab !in first
    ensures Keep(domain, first + [Tab] + rest) <==> Keep(domain, first)
  {
    var line := first + [Tab] + rest;
    var f := FirstField(line);
    assert line[|first|] == Tab;
    assert first <= line;
    assert f == line[..|f|] && first == line[..|first|];
    NoTabLineTestedWhole(domain, first);
  }

  /** A domain containing a tab can never begin a first field, so nothing passes. */
  lemma TabInDomainKeepsNothing(domain: string, data: seq<string>)
    requires Tab in domain
    ensures Filter(domain, data) == []
  {
    forall line | true
      ensures !Keep(domain, line)
    {
      KeepIffLineStartsWith(domain, line);
      forall p | p in AllowedPrefixes(domain)
        ensures Tab in p
      {
        var i :| 0 <= i < |domain| && domain[i] == Tab;
        assert p[i] == domain[i];
      }
    }
  }
}
