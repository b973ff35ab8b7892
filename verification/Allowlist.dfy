/**
  The domain allowlist of a plugin: the subdomain test of
  internal/domaincheck/validate.go and the growth of the list in
  internal/proxy/proxy.go.
 */
module Allowlist {
  import opened Wrappers
  import Text

  const MaxDynamicDomains: nat := 10
  const MaxTotalDomains: nat := 50

  // Normalize, None where it reports an error.
  type Normalizer = string -> Option<string>

  // ------------------------------------------------------ subdomain test

  predicate HasSuffix(s: string, t: string) {
    |t| <= |s| && s[|s| - |t|..] == t
  }

  // The test on two normalized names.
  predicate Under(name: string, base: string) {
    name == base || HasSuffix(name, "." + base)
  }

  predicate IsSubdomain(norm: Normalizer, domain: string, bases: seq<string>) {
    norm(domain).Some? &&
    exists i :: 0 <= i < |bases| && norm(bases[i]).Some? && Under(norm(domain).value, norm(bases[i]).value)
  }

  predicate Contains(norm: Normalizer, domains: seq<string>, domain: string) {
    norm(domain).Some? && exists i :: 0 <= i < |domains| && norm(domains[i]) == norm(domain)
  }

  predicate Validate(norm: Normalizer, isIP: string -> bool, domain: string) {
    match norm(domain)
    case None => false
    case Some(n) =>
      n != "" && n[0] != '*' && n != "localhost" && !isIP(n) && !(n[0] == '[' && n[|n| - 1] == ']')
  }

  function Labels(name: string): seq<string> {
    Text.Split(name, '.')
  }

  ghost predicate LabelsEndWith(labels: seq<string>, tail: seq<string>) {
    |tail| <= |labels| && labels[|labels| - |tail|..] == tail
  }

  // The textual test is the one on whole labels.
  lemma UnderIffLabelSuffix(name: string, base: string)
    ensures Under(name, base) <==> LabelsEndWith(Labels(name), Labels(base))
  {
    if name != base && HasSuffix(name, "." + base) {
      var front := name[..|name| - |base| - 1];
      assert name == front + ['.'] + base;
      Text.SplitAtSeparator(front, '.', base);
    }
    if LabelsEndWith(Labels(name), Labels(base)) {
      LabelSuffixIsUnder(name, base);
    }
  }

  lemma LabelSuffixIsUnder(name: string, base: string)
    requires LabelsEndWith(Labels(name), Labels(base))
    ensures Under(name, base)
  {
    var labels, tail := Labels(name), Labels(base);
    Text.JoinOfSplit(name, '.');
    Text.JoinOfSplit(base, '.');
    Text.PartsAreClean(base, '.');
    if |labels| == |tail| {
      assert labels == tail;
    } else {
      var front := labels[..|labels| - |tail|];
      assert labels == front + tail;
      Text.JoinOfAppend(front, tail, '.');
      DotEndsWith(Text.Join(front, '.'), base);
    }
  }

  lemma DotEndsWith(front: string, base: string)
    ensures HasSuffix(front + ['.'] + base, "." + base)
  {
    assert front + ['.'] + base == front + ("." + base);
  }

  lemma UnderIsTransitive(a: string, b: string, c: string)
    requires Under(a, b) && Under(b, c)
    ensures Under(a, c)
  {
    UnderIffLabelSuffix(a, b);
    UnderIffLabelSuffix(b, c);
    UnderIffLabelSuffix(a, c);
    var x, y, z := Labels(a), Labels(b), Labels(c);
    assert x[|x| - |z|..] == x[|x| - |y|..][|y| - |z|..];
  }

  // Subdomains of subdomains stay within the bases.
  lemma SubdomainIsTransitive(norm: Normalizer, d: string, mids: seq<string>, bases: seq<string>)
    requires IsSubdomain(norm, d, mids)
    requires forall m :: m in mids && norm(m).Some? ==> IsSubdomain(norm, m, bases)
    ensures IsSubdomain(norm, d, bases)
  {
    var i :| 0 <= i < |mids| && norm(mids[i]).Some? && Under(norm(d).value, norm(mids[i]).value);
    assert mids[i] in mids;
    var j :| 0 <= j < |bases| && norm(bases[j]).Some? && Under(norm(mids[i]).value, norm(bases[j]).value);
    UnderIsTransitive(norm(d).value, norm(mids[i]).value, norm(bases[j]).value);
  }

  lemma MoreBasesAdmitMore(norm: Normalizer, d: string, bases: seq<string>, more: seq<string>)
    requires IsSubdomain(norm, d, bases) && bases <= more
    ensures IsSubdomain(norm, d, more)
  {
    var i :| 0 <= i < |bases| && norm(bases[i]).Some? && Under(norm(d).value, norm(bases[i]).value);
    assert more[i] == bases[i];
  }

  // -------------------------------------------------------- growing lists

  datatype PluginAuth = PluginAuth(allowed: seq<string>, base: seq<string>)

  function AllowOne(norm: Normalizer, pa: PluginAuth, d: string): PluginAuth {
    if |pa.allowed| >= MaxTotalDomains || Contains(norm, pa.allowed, d) then pa else pa.(allowed := pa.allowed + [d])
  }

  function BaseOne(norm: Normalizer, pa: PluginAuth, d: string): PluginAuth {
    if |pa.allowed| >= MaxTotalDomains then pa
    else
      var grown := AllowOne(norm, pa, d);
      if Contains(norm, grown.base, d) then grown else grown.(base := grown.base + [d])
  }

  function WithAllowed(norm: Normalizer, pa: PluginAuth, domains: seq<string>): PluginAuth {
    if domains == [] then pa
    else AllowOne(norm, WithAllowed(norm, pa, domains[..|domains| - 1]), domains[|domains| - 1])
  }

  function WithBase(norm: Normalizer, pa: PluginAuth, domains: seq<string>): PluginAuth {
    if domains == [] then pa
    else BaseOne(norm, WithBase(norm, pa, domains[..|domains| - 1]), domains[|domains| - 1])
  }

  // The domains of a request that pass both checks, in order.
  function Admitted(norm: Normalizer, isIP: string -> bool, domains: seq<string>, bases: seq<string>): seq<string> {
    if domains == [] then []
    else
      var d := domains[|domains| - 1];
      Admitted(norm, isIP, domains[..|domains| - 1], bases) +
      if Validate(norm, isIP, d) && IsSubdomain(norm, d, bases) then [d] else []
  }

  function Capped(domains: seq<string>): seq<string> {
    if |domains| > MaxDynamicDomains then domains[..MaxDynamicDomains] else domains
  }

  // ----------------------------------------------------------- invariants

  // Each allowed domain is a base domain or below one.
  ghost predicate Anchored(norm: Normalizer, pa: PluginAuth) {
    forall d :: d in pa.allowed ==> d in pa.base || IsSubdomain(norm, d, pa.base)
  }

  ghost function Keys(norm: Normalizer, domains: seq<string>): multiset<Option<string>> {
    if domains == [] then multiset{}
    else Keys(norm, domains[..|domains| - 1]) + multiset{norm(domains[|domains| - 1])}
  }

  // The base domains, as normalized names and with their multiplicity, are
  // among the allowed ones.
  ghost predicate BaseInside(norm: Normalizer, pa: PluginAuth) {
    Keys(norm, pa.base) <= Keys(norm, pa.allowed)
  }

  // A name occurs twice only if it did in `init`.
  ghost predicate NoMoreRepeats(norm: Normalizer, init: seq<string>, domains: seq<string>) {
    forall n :: Keys(norm, domains)[Some(n)] <= if Keys(norm, init)[Some(n)] > 1 then Keys(norm, init)[Some(n)] else 1
  }

  // A registration that began with the list `init`.
  ghost predicate Grown(norm: Normalizer, init: seq<string>, pa: PluginAuth) {
    && init <= pa.allowed && init <= pa.base
    && |pa.allowed| <= (if |init| > MaxTotalDomains then |init| else MaxTotalDomains)
    && Anchored(norm, pa) && BaseInside(norm, pa)
    && NoMoreRepeats(norm, init, pa.allowed)
  }

  lemma {:induction false} KeysOfAppend(norm: Normalizer, domains: seq<string>, d: string)
    ensures Keys(norm, domains + [d]) == Keys(norm, domains) + multiset{norm(d)}
  {
    assert (domains + [d])[..|domains|] == domains;
  }

  lemma {:induction false} KeyIffContained(norm: Normalizer, domains: seq<string>, d: string)
    requires norm(d).Some?
    ensures norm(d) in Keys(norm, domains) <==> Contains(norm, domains, d)
  {
    if domains != [] {
      var init, last := domains[..|domains| - 1], domains[|domains| - 1];
      KeyIffContained(norm, init, d);
      if Contains(norm, init, d) {
        var i :| 0 <= i < |init| && norm(init[i]) == norm(d);
        assert norm(domains[i]) == norm(d);
      }
      if Contains(norm, domains, d) && norm(last) != norm(d) {
        var i :| 0 <= i < |domains| && norm(domains[i]) == norm(d);
        assert norm(init[i]) == norm(d);
      }
    }
  }

  lemma {:induction false} KeysAreCounted(norm: Normalizer, domains: seq<string>)
    ensures |Keys(norm, domains)| == |domains|
  {
    if domains != [] {
      KeysAreCounted(norm, domains[..|domains| - 1]);
    }
  }

  // So there are never more base domains than allowed ones, and every base
  // domain with a normal form passes the request check.
  lemma BaseInsideMeans(norm: Normalizer, pa: PluginAuth)
    requires BaseInside(norm, pa)
    ensures |pa.base| <= |pa.allowed|
    ensures forall b :: b in pa.base && norm(b).Some? ==> Contains(norm, pa.allowed, b)
  {
    KeysAreCounted(norm, pa.base);
    KeysAreCounted(norm, pa.allowed);
    var rest := Keys(norm, pa.allowed) - Keys(norm, pa.base);
    assert Keys(norm, pa.allowed) == Keys(norm, pa.base) + rest;
    forall b | b in pa.base && norm(b).Some? ensures Contains(norm, pa.allowed, b) {
      var i :| 0 <= i < |pa.base| && pa.base[i] == b;
      assert norm(pa.base[i]) == norm(b);
      assert Contains(norm, pa.base, b);
      KeyIffContained(norm, pa.base, b);
      KeyIffContained(norm, pa.allowed, b);
    }
  }

  lemma AllowOneGrows(norm: Normalizer, init: seq<string>, pa: PluginAuth, d: string)
    requires Grown(norm, init, pa) && IsSubdomain(norm, d, pa.base)
    ensures Grown(norm, init, AllowOne(norm, pa, d))
  {
    AllowOneCounts(norm, init, pa, d);
  }

  lemma BaseOneGrows(norm: Normalizer, init: seq<string>, pa: PluginAuth, d: string)
    requires Grown(norm, init, pa)
    ensures Grown(norm, init, BaseOne(norm, pa, d)) && pa.base <= BaseOne(norm, pa, d).base
  {
    BaseOneCounts(norm, init, pa, d);
    BaseOneAnchors(norm, pa, d);
  }

  lemma RepeatsOfAppend(norm: Normalizer, init: seq<string>, domains: seq<string>, d: string)
    requires NoMoreRepeats(norm, init, domains) && !Contains(norm, domains, d)
    ensures NoMoreRepeats(norm, init, domains + [d])
  {
    KeysOfAppend(norm, domains, d);
    if norm(d).Some? {
      KeyIffContained(norm, domains, d);
      assert Keys(norm, domains)[norm(d)] == 0;
    }
  }

  lemma OneMoreInside(small: multiset<Option<string>>, large: multiset<Option<string>>, k: Option<string>)
    requires small <= large && small[k] < large[k]
    ensures small + multiset{k} <= large
  {
  }

  lemma AllowOneCounts(norm: Normalizer, init: seq<string>, pa: PluginAuth, d: string)
    requires BaseInside(norm, pa) && NoMoreRepeats(norm, init, pa.allowed)
    ensures BaseInside(norm, AllowOne(norm, pa, d)) && NoMoreRepeats(norm, init, AllowOne(norm, pa, d).allowed)
  {
    if AllowOne(norm, pa, d) != pa {
      RepeatsOfAppend(norm, init, pa.allowed, d);
      KeysOfAppend(norm, pa.allowed, d);
    }
  }

  lemma AllowOneHasKey(norm: Normalizer, pa: PluginAuth, d: string)
    requires BaseInside(norm, pa) && |pa.allowed| < MaxTotalDomains && !Contains(norm, pa.base, d)
    ensures Keys(norm, pa.base)[norm(d)] < Keys(norm, AllowOne(norm, pa, d).allowed)[norm(d)]
  {
    KeysOfAppend(norm, pa.allowed, d);
    if norm(d).Some? {
      KeyIffContained(norm, pa.base, d);
      KeyIffContained(norm, pa.allowed, d);
    }
  }

  lemma BaseOneCounts(norm: Normalizer, init: seq<string>, pa: PluginAuth, d: string)
    requires BaseInside(norm, pa) && NoMoreRepeats(norm, init, pa.allowed)
    ensures BaseInside(norm, BaseOne(norm, pa, d)) && NoMoreRepeats(norm, init, BaseOne(norm, pa, d).allowed)
  {
    AllowOneCounts(norm, init, pa, d);
    var allowed := AllowOne(norm, pa, d).allowed;
    if BaseOne(norm, pa, d).base != pa.base {
      AllowOneHasKey(norm, pa, d);
      KeysOfAppend(norm, pa.base, d);
      OneMoreInside(Keys(norm, pa.base), Keys(norm, allowed), norm(d));
    }
  }

  lemma BaseOneAnchors(norm: Normalizer, pa: PluginAuth, d: string)
    requires Anchored(norm, pa)
    ensures Anchored(norm, BaseOne(norm, pa, d))
  {
    var after := BaseOne(norm, pa, d);
    forall e | e in after.allowed ensures e in after.base || IsSubdomain(norm, e, after.base) {
      if e in pa.allowed {
        if e !in pa.base {
          MoreBasesAdmitMore(norm, e, pa.base, after.base);
        }
      } else {
        NewBaseIsAnchored(norm, pa.base, d);
      }
    }
  }

  lemma NewBaseIsAnchored(norm: Normalizer, base: seq<string>, d: string)
    ensures Contains(norm, base, d) ==> IsSubdomain(norm, d, base)
  {
    if Contains(norm, base, d) {
      var i :| 0 <= i < |base| && norm(base[i]) == norm(d);
      assert Under(norm(d).value, norm(base[i]).value);
    }
  }

  lemma {:induction false} WithAllowedGrows(norm: Normalizer, init: seq<string>, pa: PluginAuth, domains: seq<string>)
    requires Grown(norm, init, pa) && forall d :: d in domains ==> IsSubdomain(norm, d, pa.base)
    ensures Grown(norm, init, WithAllowed(norm, pa, domains))
    ensures WithAllowed(norm, pa, domains).base == pa.base
  {
    if domains != [] {
      var rest, d := domains[..|domains| - 1], domains[|domains| - 1];
      WithAllowedGrows(norm, init, pa, rest);
      assert d in domains;
      AllowOneGrows(norm, init, WithAllowed(norm, pa, rest), d);
    }
  }

  lemma {:induction false} WithBaseGrows(norm: Normalizer, init: seq<string>, pa: PluginAuth, domains: seq<string>)
    requires Grown(norm, init, pa)
    ensures Grown(norm, init, WithBase(norm, pa, domains)) && pa.base <= WithBase(norm, pa, domains).base
  {
    if domains != [] {
      var rest, d := domains[..|domains| - 1], domains[|domains| - 1];
      WithBaseGrows(norm, init, pa, rest);
      BaseOneGrows(norm, init, WithBase(norm, pa, rest), d);
    }
  }

  // Whatever was asked for and has a normal form is allowed afterwards, unless
  // the list is full.
  lemma {:induction false} AskedIsAllowed(norm: Normalizer, pa: PluginAuth, domains: seq<string>)
    ensures var after := WithAllowed(norm, pa, domains);
            && pa.allowed <= after.allowed
            && (|after.allowed| >= MaxTotalDomains || forall d :: d in domains && norm(d).Some? ==> Contains(norm, after.allowed, d))
  {
    if domains != [] {
      var rest, last := domains[..|domains| - 1], domains[|domains| - 1];
      AskedIsAllowed(norm, pa, rest);
      var before, after := WithAllowed(norm, pa, rest), WithAllowed(norm, pa, domains);
      if |after.allowed| < MaxTotalDomains {
        forall d | d in domains && norm(d).Some? ensures Contains(norm, after.allowed, d) {
          if d in rest {
            var i :| 0 <= i < |before.allowed| && norm(before.allowed[i]) == norm(d);
            assert norm(after.allowed[i]) == norm(d);
          } else if after != before {
            assert after.allowed[|before.allowed|] == d;
          }
        }
      }
    }
  }

  // Nothing else is.
  lemma {:induction false} AllowedWasAsked(norm: Normalizer, pa: PluginAuth, domains: seq<string>, d: string)
    requires d in WithAllowed(norm, pa, domains).allowed
    ensures d in pa.allowed || d in domains
  {
    if domains != [] && d !in pa.allowed && d in WithAllowed(norm, pa, domains[..|domains| - 1]).allowed {
      AllowedWasAsked(norm, pa, domains[..|domains| - 1], d);
    }
  }

  lemma OneBaseIsAsked(norm: Normalizer, pa: PluginAuth, d: string)
    ensures var after := BaseOne(norm, pa, d);
            && pa.base <= after.base && pa.allowed <= after.allowed
            && (|pa.allowed| < MaxTotalDomains && norm(d).Some? ==> Contains(norm, after.allowed, d) && Contains(norm, after.base, d))
  {
    var after := BaseOne(norm, pa, d);
    if |pa.allowed| < MaxTotalDomains && norm(d).Some? {
      assert Contains(norm, pa.allowed, d) || after.allowed[|pa.allowed|] == d;
      assert Contains(norm, pa.base, d) || after.base[|pa.base|] == d;
    }
  }

  // Whatever base domain was asked for and has a normal form is a base domain
  // and allowed afterwards, unless the list is full; what was there stays.
  lemma {:induction false} AskedIsBase(norm: Normalizer, pa: PluginAuth, domains: seq<string>)
    ensures var after := WithBase(norm, pa, domains);
            && pa.base <= after.base && pa.allowed <= after.allowed
            && (|after.allowed| >= MaxTotalDomains ||
                forall d :: d in domains && norm(d).Some? ==> Contains(norm, after.allowed, d) && Contains(norm, after.base, d))
  {
    if domains != [] {
      var rest, last := domains[..|domains| - 1], domains[|domains| - 1];
      AskedIsBase(norm, pa, rest);
      var before, after := WithBase(norm, pa, rest), WithBase(norm, pa, domains);
      OneBaseIsAsked(norm, before, last);
      if |after.allowed| < MaxTotalDomains {
        forall d | d in domains && norm(d).Some? ensures Contains(norm, after.allowed, d) && Contains(norm, after.base, d) {
          if d in rest {
            ContainsGrows(norm, before.allowed, after.allowed, d);
            ContainsGrows(norm, before.base, after.base, d);
          }
        }
      }
    }
  }

  lemma {:induction false} AdmittedPasses(norm: Normalizer, isIP: string -> bool, domains: seq<string>, bases: seq<string>)
    ensures forall d :: d in Admitted(norm, isIP, domains, bases)
                        <==> d in domains && Validate(norm, isIP, d) && IsSubdomain(norm, d, bases)
  {
    if domains != [] {
      AdmittedPasses(norm, isIP, domains[..|domains| - 1], bases);
      assert domains == domains[..|domains| - 1] + [domains[|domains| - 1]];
    }
  }

  // ---------------------------------------------------------------- proxy

  class Proxy {
    const norm: Normalizer
    const isIP: string -> bool
    var plugins: map<string, PluginAuth>

    constructor (norm: Normalizer, isIP: string -> bool)
      ensures plugins == map[] && this.norm == norm && this.isIP == isIP
    {
      this.norm, this.isIP := norm, isIP;
      plugins := map[];
    }

    method RegisterPlugin(name: string, allowed: seq<string>)
      modifies this
      ensures plugins == old(plugins)[name := PluginAuth(allowed, allowed)]
      ensures Grown(norm, allowed, plugins[name])
    {
      plugins := plugins[name := PluginAuth(allowed, allowed)];
    }

    method UnregisterPlugin(name: string)
      modifies this
      ensures plugins == old(plugins) - {name}
    {
      plugins := plugins - {name};
    }

    method AddAllowedDomains(name: string, domains: seq<string>)
      modifies this
      ensures plugins == if name in old(plugins) then old(plugins)[name := WithAllowed(norm, old(plugins)[name], domains)] else old(plugins)
    {
      if name !in plugins {
        return;
      }
      var pa := plugins[name];
      for i := 0 to |domains|
        invariant pa == WithAllowed(norm, plugins[name], domains[..i])
      {
        assert domains[..i + 1][..i] == domains[..i];
        if |pa.allowed| >= MaxTotalDomains {
          continue;
        }
        if !Contains(norm, pa.allowed, domains[i]) {
          pa := pa.(allowed := pa.allowed + [domains[i]]);
        }
      }
      assert domains[..|domains|] == domains;
      plugins := plugins[name := pa];
    }

    method AddBaseDomains(name: string, domains: seq<string>)
      modifies this
      ensures plugins == if name in old(plugins) then old(plugins)[name := WithBase(norm, old(plugins)[name], domains)] else old(plugins)
      ensures forall init :: name in old(plugins) && Grown(norm, init, old(plugins)[name]) ==> Grown(norm, init, plugins[name])
    {
      if name !in plugins {
        return;
      }
      var pa := plugins[name];
      for i := 0 to |domains|
        invariant pa == WithBase(norm, plugins[name], domains[..i])
      {
        assert domains[..i + 1][..i] == domains[..i];
        if |pa.allowed| >= MaxTotalDomains {
          continue;
        }
        if !Contains(norm, pa.allowed, domains[i]) {
          pa := pa.(allowed := pa.allowed + [domains[i]]);
        }
        if !Contains(norm, pa.base, domains[i]) {
          pa := pa.(base := pa.base + [domains[i]]);
        }
      }
      assert domains[..|domains|] == domains;
      forall init | Grown(norm, init, plugins[name]) ensures Grown(norm, init, pa) {
        WithBaseGrows(norm, init, plugins[name], domains);
      }
      plugins := plugins[name := pa];
    }

    // The filter of Execute over a snapshot of the base domains.
    method Filter(domains: seq<string>, bases: seq<string>) returns (valid: seq<string>)
      ensures valid == Admitted(norm, isIP, Capped(domains), bases)
    {
      var capped := domains;
      if |capped| > MaxDynamicDomains {
        capped := capped[..MaxDynamicDomains];
      }
      valid := [];
      for i := 0 to |capped|
        invariant valid == Admitted(norm, isIP, capped[..i], bases)
      {
        assert capped[..i + 1][..i] == capped[..i];
        if !Validate(norm, isIP, capped[i]) {
          continue;
        }
        if !IsSubdomain(norm, capped[i], bases) {
          continue;
        }
        valid := valid + [capped[i]];
      }
      assert capped[..|capped|] == capped;
    }

    // The domain part of Execute when nothing runs in between: the list that
    // the request is checked against, None for an unknown plugin.
    method Extend(name: string, domains: seq<string>, ghost init: seq<string>) returns (allowed: Option<seq<string>>)
      modifies this
      ensures allowed.None? <==> name !in old(plugins)
      ensures allowed.None? ==> plugins == old(plugins)
      ensures allowed.Some? ==>
                var pa := old(plugins)[name];
                && plugins == old(plugins)[name := WithAllowed(norm, pa, Admitted(norm, isIP, Capped(domains), pa.base))]
                && allowed.value == plugins[name].allowed
                && (Grown(norm, init, pa) ==> Grown(norm, init, plugins[name]))
    {
      if name !in plugins {
        return None;
      }
      ghost var pa := plugins[name];
      var valid := Filter(domains, plugins[name].base);
      AdmittedPasses(norm, isIP, Capped(domains), pa.base);
      if Grown(norm, init, pa) {
        WithAllowedGrows(norm, init, pa, valid);
      }
      if |valid| > 0 {
        AddAllowedDomains(name, valid);
      }
      return Some(plugins[name].allowed);
    }
  }

  // ----------------------------------------------------------------- runs

  // A plugin with requests in flight: a request filters against the base
  // domains it saw, and adds later, also when the plugin was registered again
  // in between or is not registered any more.  `auth` is what the last
  // registration has become.
  datatype State = State(registered: bool, auth: PluginAuth, pending: seq<seq<string>>)

  datatype Step =
    | InitDomains(domains: seq<string>)
    | Begin(domains: seq<string>)
    | Finish(i: nat)
    | Register(allowed: seq<string>)
    | Unregister

  function Next(norm: Normalizer, isIP: string -> bool, s: State, step: Step): State {
    match step
    case InitDomains(ds) => if s.registered then s.(auth := WithBase(norm, s.auth, ds)) else s
    case Begin(ds) =>
      if s.registered then s.(pending := s.pending + [Admitted(norm, isIP, Capped(ds), s.auth.base)]) else s
    case Finish(i) =>
      if i >= |s.pending| then s
      else s.(auth := if s.registered then WithAllowed(norm, s.auth, s.pending[i]) else s.auth, pending := s.pending[..i] + s.pending[i + 1..])
    case Register(allowed) => s.(registered := true, auth := PluginAuth(allowed, allowed))
    case Unregister => s.(registered := false)
  }

  function After(norm: Normalizer, isIP: string -> bool, init: seq<string>, steps: seq<Step>): State {
    if steps == [] then State(true, PluginAuth(init, init), [])
    else Next(norm, isIP, After(norm, isIP, init, steps[..|steps| - 1]), steps[|steps| - 1])
  }

  // What the proxy holds for the plugin of this state.
  ghost predicate Shows(p: Proxy, name: string, s: State) reads p {
    (name in p.plugins <==> s.registered) && (s.registered ==> p.plugins[name] == s.auth)
  }

  // The proxy's methods are the steps, and touch no other plugin.
  method Perform(p: Proxy, name: string, s: State, step: Step) returns (t: State)
    requires Shows(p, name, s)
    modifies p
    ensures t == Next(p.norm, p.isIP, s, step) && Shows(p, name, t)
    ensures p.plugins - {name} == old(p.plugins) - {name}
  {
    t := s;
    match step
    case InitDomains(ds) =>
      p.AddBaseDomains(name, ds);
      if name in p.plugins {
        t := s.(auth := p.plugins[name]);
      }
    case Begin(ds) =>
      if name in p.plugins {
        var valid := p.Filter(ds, p.plugins[name].base);
        t := s.(pending := s.pending + [valid]);
      }
    case Finish(i) =>
      if i < |s.pending| {
        p.AddAllowedDomains(name, s.pending[i]);
        t := s.(auth := if name in p.plugins then p.plugins[name] else s.auth, pending := s.pending[..i] + s.pending[i + 1..]);
      }
    case Register(allowed) =>
      p.RegisterPlugin(name, allowed);
      t := s.(registered := true, auth := p.plugins[name]);
    case Unregister =>
      p.UnregisterPlugin(name);
      t := s.(registered := false);
  }

  // Any run of the proxy's methods for one plugin is a run of these steps.
  method Drive(norm: Normalizer, isIP: string -> bool, name: string, init: seq<string>, steps: seq<Step>) returns (p: Proxy, s: State)
    ensures s == After(norm, isIP, init, steps) && Shows(p, name, s)
  {
    p := new Proxy(norm, isIP);
    p.RegisterPlugin(name, init);
    s := State(true, p.plugins[name], []);
    for k := 0 to |steps|
      invariant fresh(p) && p.norm == norm && p.isIP == isIP
      invariant s == After(norm, isIP, init, steps[..k]) && Shows(p, name, s)
    {
      assert steps[..k + 1][..k] == steps[..k];
      s := Perform(p, name, s, steps[k]);
    }
    assert steps[..|steps|] == steps;
  }

  ghost predicate Sound(norm: Normalizer, init: seq<string>, s: State) {
    && Grown(norm, init, s.auth)
    && forall i :: 0 <= i < |s.pending| ==> AllUnder(norm, s.pending[i], s.auth.base)
  }

  ghost predicate AllUnder(norm: Normalizer, domains: seq<string>, bases: seq<string>) {
    forall d :: d in domains ==> IsSubdomain(norm, d, bases)
  }

  predicate OneRegistration(steps: seq<Step>) {
    forall k :: 0 <= k < |steps| ==> !steps[k].Register?
  }

  lemma InitIsSound(norm: Normalizer, isIP: string -> bool, init: seq<string>, s: State, ds: seq<string>)
    requires Sound(norm, init, s)
    ensures Sound(norm, init, Next(norm, isIP, s, InitDomains(ds)))
  {
    var t := Next(norm, isIP, s, InitDomains(ds));
    WithBaseGrows(norm, init, s.auth, ds);
    forall i | 0 <= i < |t.pending| ensures AllUnder(norm, t.pending[i], t.auth.base) {
      assert AllUnder(norm, s.pending[i], s.auth.base);
      forall d | d in t.pending[i] ensures IsSubdomain(norm, d, t.auth.base) {
        MoreBasesAdmitMore(norm, d, s.auth.base, t.auth.base);
      }
    }
  }

  lemma FinishIsSound(norm: Normalizer, isIP: string -> bool, init: seq<string>, s: State, i: nat)
    requires Sound(norm, init, s) && i < |s.pending|
    ensures Sound(norm, init, Next(norm, isIP, s, Finish(i)))
  {
    assert AllUnder(norm, s.pending[i], s.auth.base);
    WithAllowedGrows(norm, init, s.auth, s.pending[i]);
  }

  lemma NextIsSound(norm: Normalizer, isIP: string -> bool, init: seq<string>, s: State, step: Step)
    requires Sound(norm, init, s) && !step.Register?
    ensures Sound(norm, init, Next(norm, isIP, s, step))
  {
    match step
    case InitDomains(ds) => InitIsSound(norm, isIP, init, s, ds);
    case Begin(ds) => AdmittedPasses(norm, isIP, Capped(ds), s.auth.base);
    case Finish(i) =>
      if i < |s.pending| {
        FinishIsSound(norm, isIP, init, s, i);
      }
    case Unregister =>
  }

  // In every run of one registration each allowed domain lies under a base
  // domain, the base domains are allowed, and additions respect the limit.
  lemma {:induction false} RunIsSound(norm: Normalizer, isIP: string -> bool, init: seq<string>, steps: seq<Step>)
    requires OneRegistration(steps)
    ensures Sound(norm, init, After(norm, isIP, init, steps))
  {
    if steps != [] {
      RunIsSound(norm, isIP, init, steps[..|steps| - 1]);
      NextIsSound(norm, isIP, init, After(norm, isIP, init, steps[..|steps| - 1]), steps[|steps| - 1]);
    }
  }

  lemma {:induction false} BasesComeFromSteps(norm: Normalizer, isIP: string -> bool, init: seq<string>, steps: seq<Step>, b: string)
    requires OneRegistration(steps) && b in After(norm, isIP, init, steps).auth.base
    ensures b in init || exists k :: 0 <= k < |steps| && steps[k].InitDomains? && b in steps[k].domains
  {
    if steps != [] {
      var rest, last := steps[..|steps| - 1], steps[|steps| - 1];
      var s := After(norm, isIP, init, rest);
      if b in s.auth.base {
        BasesComeFromSteps(norm, isIP, init, rest, b);
        if b !in init {
          var k :| 0 <= k < |rest| && rest[k].InitDomains? && b in rest[k].domains;
          assert steps[k].InitDomains? && b in steps[k].domains;
        }
      } else {
        match last
        case InitDomains(ds) => NewBaseWasAsked(norm, s.auth, ds, b);
        case Begin(_) =>
        case Unregister =>
        case Finish(i) => BaseIsKept(norm, s.auth, if i < |s.pending| then s.pending[i] else []);
      }
    }
  }

  lemma {:induction false} NewBaseWasAsked(norm: Normalizer, pa: PluginAuth, domains: seq<string>, b: string)
    requires b in WithBase(norm, pa, domains).base
    ensures b in pa.base || b in domains
  {
    if domains != [] && b !in pa.base {
      if b in WithBase(norm, pa, domains[..|domains| - 1]).base {
        NewBaseWasAsked(norm, pa, domains[..|domains| - 1], b);
      }
    }
  }

  lemma {:induction false} BaseIsKept(norm: Normalizer, pa: PluginAuth, domains: seq<string>)
    ensures WithAllowed(norm, pa, domains).base == pa.base
  {
    if domains != [] {
      BaseIsKept(norm, pa, domains[..|domains| - 1]);
    }
  }

  // ------------------------------------------ what a request can bring in

  // Names the check is there to keep out.
  predicate Forbidden(isIP: string -> bool, name: string) {
    name in ["", "localhost"] || name[..1] == "*" || isIP(name) || (name[..1] == "[" && name[|name| - 1..] == "]")
  }

  lemma ValidateForbids(norm: Normalizer, isIP: string -> bool, d: string)
    ensures Validate(norm, isIP, d) <==> norm(d).Some? && !Forbidden(isIP, norm(d).value)
  {
    if norm(d).Some? && norm(d).value != "" {
      var n := norm(d).value;
      assert n[..1] == [n[0]] && n[|n| - 1..] == [n[|n| - 1]];
    }
  }

  // A request adds ten domains at most.
  lemma {:induction false} AtMostTenAdmitted(norm: Normalizer, isIP: string -> bool, domains: seq<string>, bases: seq<string>)
    ensures |Admitted(norm, isIP, Capped(domains), bases)| <= 10
    ensures |domains| <= 10 ==> Capped(domains) == domains
    ensures Capped(domains) <= domains
  {
    AdmittedAreFewer(norm, isIP, Capped(domains), bases);
  }

  lemma {:induction false} AdmittedAreFewer(norm: Normalizer, isIP: string -> bool, domains: seq<string>, bases: seq<string>)
    ensures |Admitted(norm, isIP, domains, bases)| <= |domains|
  {
    if domains != [] {
      AdmittedAreFewer(norm, isIP, domains[..|domains| - 1], bases);
    }
  }

  // Where an allowed domain comes from: the manifest's list of some
  // registration, the domains announced at start, or a request.
  ghost predicate Announced(init: seq<string>, steps: seq<Step>, d: string) {
    || d in init
    || (exists k :: 0 <= k < |steps| && steps[k].InitDomains? && d in steps[k].domains)
    || (exists k :: 0 <= k < |steps| && steps[k].Register? && d in steps[k].allowed)
  }

  lemma AnnouncedStays(init: seq<string>, steps: seq<Step>, step: Step, d: string)
    requires Announced(init, steps, d) || (step.InitDomains? && d in step.domains) || (step.Register? && d in step.allowed)
    ensures Announced(init, steps + [step], d)
  {
    var longer := steps + [step];
    assert longer[|steps|] == step && forall k :: 0 <= k < |steps| ==> longer[k] == steps[k];
  }

  // Whatever a request added, in any run and across registrations, has a normal
  // form and is not forbidden.
  lemma {:induction false} RequestsAddNothingForbidden(norm: Normalizer, isIP: string -> bool, init: seq<string>, steps: seq<Step>)
    ensures CleanOfForbidden(norm, isIP, init, steps, After(norm, isIP, init, steps))
  {
    if steps != [] {
      var rest, last := steps[..|steps| - 1], steps[|steps| - 1];
      RequestsAddNothingForbidden(norm, isIP, init, rest);
      StepAddsNothingForbidden(norm, isIP, init, rest, After(norm, isIP, init, rest), last);
      assert steps == rest + [last];
    }
  }

  ghost predicate CleanOfForbidden(norm: Normalizer, isIP: string -> bool, init: seq<string>, steps: seq<Step>, s: State) {
    && (forall d :: d in s.auth.allowed ==> Announced(init, steps, d) || Validate(norm, isIP, d))
    && forall i :: 0 <= i < |s.pending| ==> AllValid(norm, isIP, s.pending[i])
  }

  lemma StepAddsNothingForbidden(norm: Normalizer, isIP: string -> bool, init: seq<string>, steps: seq<Step>, s: State, step: Step)
    requires CleanOfForbidden(norm, isIP, init, steps, s)
    ensures CleanOfForbidden(norm, isIP, init, steps + [step], Next(norm, isIP, s, step))
  {
    var t := Next(norm, isIP, s, step);
    forall d | d in t.auth.allowed ensures Announced(init, steps + [step], d) || Validate(norm, isIP, d) {
      AllowedIsOldOrNew(norm, isIP, s, step, d);
      if step.Finish? && step.i < |s.pending| && d in s.pending[step.i] {
        assert AllValid(norm, isIP, s.pending[step.i]);
      }
      if Announced(init, steps, d) || (step.InitDomains? && d in step.domains) || (step.Register? && d in step.allowed) {
        AnnouncedStays(init, steps, step, d);
      }
    }
    PendingStaysValid(norm, isIP, s, step);
  }

  ghost predicate AllValid(norm: Normalizer, isIP: string -> bool, domains: seq<string>) {
    forall d :: d in domains ==> Validate(norm, isIP, d)
  }

  lemma PendingStaysValid(norm: Normalizer, isIP: string -> bool, s: State, step: Step)
    requires forall i :: 0 <= i < |s.pending| ==> AllValid(norm, isIP, s.pending[i])
    ensures var t := Next(norm, isIP, s, step); forall i :: 0 <= i < |t.pending| ==> AllValid(norm, isIP, t.pending[i])
  {
    match step
    case Begin(ds) => AdmittedPasses(norm, isIP, Capped(ds), s.auth.base);
    case _ =>
  }

  lemma AllowedIsOldOrNew(norm: Normalizer, isIP: string -> bool, s: State, step: Step, d: string)
    requires d in Next(norm, isIP, s, step).auth.allowed
    ensures d in s.auth.allowed || (step.InitDomains? && d in step.domains) || (step.Register? && d in step.allowed)
            || (step.Finish? && step.i < |s.pending| && d in s.pending[step.i])
  {
    match step
    case InitDomains(ds) =>
      if s.registered {
        NewAllowedByBase(norm, s.auth, ds, d);
      }
    case Finish(i) =>
      if i < |s.pending| && s.registered {
        AllowedWasAsked(norm, s.auth, s.pending[i], d);
      }
    case _ =>
  }

  lemma {:induction false} NewAllowedByBase(norm: Normalizer, pa: PluginAuth, domains: seq<string>, d: string)
    requires d in WithBase(norm, pa, domains).allowed
    ensures d in pa.allowed || d in domains
  {
    if domains != [] && d !in pa.allowed && d in WithBase(norm, pa, domains[..|domains| - 1]).allowed {
      NewAllowedByBase(norm, pa, domains[..|domains| - 1], d);
    }
  }

  // When the domains announced at start lie under the manifest's list, so does
  // every domain that is ever allowed.
  lemma AllowedStaysUnderManifest(norm: Normalizer, isIP: string -> bool, init: seq<string>, steps: seq<Step>, d: string)
    requires forall k, b :: 0 <= k < |steps| && steps[k].InitDomains? && b in steps[k].domains ==> IsSubdomain(norm, b, init)
    requires OneRegistration(steps) && d in After(norm, isIP, init, steps).auth.allowed
    ensures d in init || IsSubdomain(norm, d, init)
  {
    RunIsSound(norm, isIP, init, steps);
    var auth := After(norm, isIP, init, steps).auth;
    forall b | b in auth.base ensures b in init || IsSubdomain(norm, b, init) {
      BasesComeFromSteps(norm, isIP, init, steps, b);
    }
    if d !in auth.base {
      forall m | m in auth.base && norm(m).Some? ensures IsSubdomain(norm, m, init) {
        if m in init {
          InListIsUnder(norm, m, init);
        }
      }
      SubdomainIsTransitive(norm, d, auth.base, init);
    }
  }

  lemma InListIsUnder(norm: Normalizer, m: string, list: seq<string>)
    requires m in list && norm(m).Some?
    ensures IsSubdomain(norm, m, list)
  {
    var i :| 0 <= i < |list| && list[i] == m;
    assert Under(norm(m).value, norm(list[i]).value);
  }

  /* ----- registering again with requests in flight ----- */

  // There is room for the j-th domain of a request when its turn comes.
  predicate HasRoom(norm: Normalizer, pa: PluginAuth, domains: seq<string>, j: nat)
    requires j <= |domains|
  {
    |WithAllowed(norm, pa, domains[..j]).allowed| < MaxTotalDomains
  }

  // What can be asked of a request before it finishes: every domain there is
  // room for is allowed already or lies under the current base domains.
  ghost predicate Covered(norm: Normalizer, pa: PluginAuth, domains: seq<string>) {
    forall j :: 0 <= j < |domains| && HasRoom(norm, pa, domains, j) ==>
      Contains(norm, pa.allowed, domains[j]) || IsSubdomain(norm, domains[j], pa.base)
  }

  // Equal names are under the same bases.
  lemma SameNameSameBases(norm: Normalizer, d: string, e: string, bases: seq<string>)
    requires norm(d) == norm(e) && IsSubdomain(norm, e, bases)
    ensures IsSubdomain(norm, d, bases)
  {
  }

  // Adding a list keeps every allowed domain under a base domain exactly when
  // the list is covered.
  lemma {:induction false} AnchoredIffCovered(norm: Normalizer, pa: PluginAuth, domains: seq<string>)
    requires Anchored(norm, pa) && forall d :: d in domains ==> norm(d).Some?
    ensures Anchored(norm, WithAllowed(norm, pa, domains)) <==> Covered(norm, pa, domains)
  {
    if domains != [] {
      var init, d := domains[..|domains| - 1], domains[|domains| - 1];
      assert domains == init + [d];
      assert forall e :: e in init ==> e in domains;
      assert d in domains;
      AnchoredIffCovered(norm, pa, init);
      CoveredAppend(norm, pa, init, d);
      var before := WithAllowed(norm, pa, init);
      BaseIsKept(norm, pa, init);
      AskedIsAllowed(norm, pa, init);
      if Anchored(norm, before) {
        OneMoreAnchored(norm, pa, before, d);
      } else {
        StaysUnanchored(norm, before, d);
      }
    }
  }

  lemma CoveredAppend(norm: Normalizer, pa: PluginAuth, domains: seq<string>, d: string)
    ensures Covered(norm, pa, domains + [d]) <==>
            Covered(norm, pa, domains) &&
            (|WithAllowed(norm, pa, domains).allowed| < MaxTotalDomains ==> Contains(norm, pa.allowed, d) || IsSubdomain(norm, d, pa.base))
  {
    var longer := domains + [d];
    assert longer[..|domains|] == domains;
    forall j | 0 <= j < |domains| ensures HasRoom(norm, pa, longer, j) <==> HasRoom(norm, pa, domains, j) {
      assert longer[..j] == domains[..j];
    }
    assert HasRoom(norm, pa, longer, |domains|) <==> |WithAllowed(norm, pa, domains).allowed| < MaxTotalDomains;
    if Covered(norm, pa, longer) {
      forall j | 0 <= j < |domains| && HasRoom(norm, pa, domains, j)
        ensures Contains(norm, pa.allowed, domains[j]) || IsSubdomain(norm, domains[j], pa.base)
      {
        assert HasRoom(norm, pa, longer, j) && longer[j] == domains[j];
      }
      assert longer[|domains|] == d;
    }
  }

  // `before` grew from pa and is anchored; one domain more.
  lemma OneMoreAnchored(norm: Normalizer, pa: PluginAuth, before: PluginAuth, d: string)
    requires Anchored(norm, before) && before.base == pa.base && pa.allowed <= before.allowed && norm(d).Some?
    ensures Anchored(norm, AllowOne(norm, before, d)) <==>
            (|before.allowed| < MaxTotalDomains ==> Contains(norm, pa.allowed, d) || IsSubdomain(norm, d, pa.base))
  {
    var after := AllowOne(norm, before, d);
    if after != before {
      assert after.allowed[|before.allowed|] == d && d in after.allowed;
      if d in pa.base {
        InListIsUnder(norm, d, pa.base);
      }
      ContainsGrows(norm, pa.allowed, before.allowed, d);
    } else if |before.allowed| < MaxTotalDomains {
      var i :| 0 <= i < |before.allowed| && norm(before.allowed[i]) == norm(d);
      NewOrUnder(norm, pa, before, d, i);
    }
  }

  lemma ContainsGrows(norm: Normalizer, list: seq<string>, longer: seq<string>, d: string)
    requires list <= longer
    ensures Contains(norm, list, d) ==> Contains(norm, longer, d)
  {
    if Contains(norm, list, d) {
      var i :| 0 <= i < |list| && norm(list[i]) == norm(d);
      assert longer[i] == list[i];
    }
  }

  lemma NewOrUnder(norm: Normalizer, pa: PluginAuth, before: PluginAuth, d: string, i: nat)
    requires Anchored(norm, before) && before.base == pa.base && norm(d).Some?
    requires i < |before.allowed| && norm(before.allowed[i]) == norm(d)
    ensures IsSubdomain(norm, d, pa.base)
  {
    var e := before.allowed[i];
    assert e in before.allowed;
    if e in pa.base {
      InListIsUnder(norm, e, pa.base);
    }
    SameNameSameBases(norm, d, e, pa.base);
  }

  lemma StaysUnanchored(norm: Normalizer, before: PluginAuth, d: string)
    requires !Anchored(norm, before)
    ensures !Anchored(norm, AllowOne(norm, before, d))
  {
    var e :| e in before.allowed && !(e in before.base || IsSubdomain(norm, e, before.base));
    assert e in AllowOne(norm, before, d).allowed;
  }

  // So for any request that finishes, whatever registrations came between; one
  // that finds the plugin unregistered adds nothing.
  lemma FinishAnchoredIff(norm: Normalizer, isIP: string -> bool, init: seq<string>, steps: seq<Step>, i: nat)
    requires var s := After(norm, isIP, init, steps); i < |s.pending| && Anchored(norm, s.auth)
    ensures var s := After(norm, isIP, init, steps);
            Anchored(norm, Next(norm, isIP, s, Finish(i)).auth) <==> !s.registered || Covered(norm, s.auth, s.pending[i])
  {
    var s := After(norm, isIP, init, steps);
    PendingHaveNames(norm, isIP, init, steps);
    assert forall d :: d in s.pending[i] ==> norm(d).Some?;
    AnchoredIffCovered(norm, s.auth, s.pending[i]);
  }

  ghost predicate AllNamed(norm: Normalizer, domains: seq<string>) {
    forall d :: d in domains ==> norm(d).Some?
  }

  lemma {:induction false} PendingHaveNames(norm: Normalizer, isIP: string -> bool, init: seq<string>, steps: seq<Step>)
    ensures forall i :: 0 <= i < |After(norm, isIP, init, steps).pending| ==> AllNamed(norm, After(norm, isIP, init, steps).pending[i])
  {
    if steps != [] {
      var rest, last := steps[..|steps| - 1], steps[|steps| - 1];
      PendingHaveNames(norm, isIP, init, rest);
      if last.Begin? {
        AdmittedPasses(norm, isIP, Capped(last.domains), After(norm, isIP, init, rest).auth.base);
      }
    }
  }

  // Runs with any registrations: while every request that finishes is covered
  // at that time, the invariant of the current registration holds.
  function CurrentList(init: seq<string>, steps: seq<Step>): seq<string> {
    if steps == [] then init
    else if steps[|steps| - 1].Register? then steps[|steps| - 1].allowed
    else CurrentList(init, steps[..|steps| - 1])
  }

  ghost predicate FinishesCovered(norm: Normalizer, isIP: string -> bool, init: seq<string>, steps: seq<Step>) {
    forall k :: 0 <= k < |steps| ==> StepCovered(norm, After(norm, isIP, init, steps[..k]), steps[k])
  }

  ghost predicate StepCovered(norm: Normalizer, s: State, step: Step) {
    step.Finish? && s.registered && step.i < |s.pending| ==> Covered(norm, s.auth, s.pending[step.i])
  }

  lemma {:induction false} CoveredRunIsGrown(norm: Normalizer, isIP: string -> bool, init: seq<string>, steps: seq<Step>)
    requires FinishesCovered(norm, isIP, init, steps)
    ensures Grown(norm, CurrentList(init, steps), After(norm, isIP, init, steps).auth)
  {
    if steps != [] {
      var rest, last := steps[..|steps| - 1], steps[|steps| - 1];
      forall k | 0 <= k < |rest| ensures StepCovered(norm, After(norm, isIP, init, rest[..k]), rest[k]) {
        assert rest[..k] == steps[..k] && StepCovered(norm, After(norm, isIP, init, steps[..k]), steps[k]);
      }
      CoveredRunIsGrown(norm, isIP, init, rest);
      var s := After(norm, isIP, init, rest);
      assert StepCovered(norm, s, last);
      match last
      case InitDomains(ds) => WithBaseGrows(norm, CurrentList(init, rest), s.auth, ds);
      case Finish(i) =>
        if s.registered && i < |s.pending| {
          PendingHaveNames(norm, isIP, init, rest);
          assert AllNamed(norm, s.pending[i]);
          CoveredGrows(norm, CurrentList(init, rest), s.auth, s.pending[i]);
        }
      case _ =>
    }
  }

  lemma CoveredGrows(norm: Normalizer, init: seq<string>, pa: PluginAuth, domains: seq<string>)
    requires Grown(norm, init, pa) && AllNamed(norm, domains) && Covered(norm, pa, domains)
    ensures Grown(norm, init, WithAllowed(norm, pa, domains))
  {
    AnchoredIffCovered(norm, pa, domains);
    WithAllowedCounts(norm, init, pa, domains);
  }

  lemma {:induction false} WithAllowedCounts(norm: Normalizer, init: seq<string>, pa: PluginAuth, domains: seq<string>)
    requires init <= pa.allowed && init <= pa.base && BaseInside(norm, pa) && NoMoreRepeats(norm, init, pa.allowed)
    requires |pa.allowed| <= if |init| > MaxTotalDomains then |init| else MaxTotalDomains
    ensures var after := WithAllowed(norm, pa, domains);
            && init <= after.allowed && after.base == pa.base && BaseInside(norm, after) && NoMoreRepeats(norm, init, after.allowed)
            && |after.allowed| <= if |init| > MaxTotalDomains then |init| else MaxTotalDomains
  {
    if domains != [] {
      WithAllowedCounts(norm, init, pa, domains[..|domains| - 1]);
      AllowOneCounts(norm, init, WithAllowed(norm, pa, domains[..|domains| - 1]), domains[|domains| - 1]);
    }
  }

  // The failing run: a request begins, the plugin is registered again with
  // other domains, the request finishes.
  lemma StaleRequestEscapes(norm: Normalizer, isIP: string -> bool, d: string, a: string, b: string)
    requires norm(d) == Some(d) && norm(a) == Some(a) && norm(b) == Some(b)
    requires Validate(norm, isIP, d) && Under(d, a) && !Under(d, b)
    ensures !Anchored(norm, After(norm, isIP, [a], [Begin([d]), Register([b]), Finish(0)]).auth)
  {
    OneIsAdmitted(norm, isIP, d, a);
    AfterOneMore(norm, isIP, [a], [], Begin([d]));
    assert [] + [Begin([d])] == [Begin([d])];
    AfterOneMore(norm, isIP, [a], [Begin([d])], Register([b]));
    assert [Begin([d])] + [Register([b])] == [Begin([d]), Register([b])];
    AfterOneMore(norm, isIP, [a], [Begin([d]), Register([b])], Finish(0));
    assert [Begin([d]), Register([b])] + [Finish(0)] == [Begin([d]), Register([b]), Finish(0)];
    var s := State(true, PluginAuth([b], [b]), [[d]]);
    assert [] + [[d]] == [[d]];
    assert After(norm, isIP, [a], [Begin([d]), Register([b])]) == s;
    OneIsNotAnchored(norm, d, b);
  }

  lemma AfterOneMore(norm: Normalizer, isIP: string -> bool, init: seq<string>, steps: seq<Step>, step: Step)
    ensures After(norm, isIP, init, steps + [step]) == Next(norm, isIP, After(norm, isIP, init, steps), step)
  {
    assert (steps + [step])[..|steps|] == steps;
  }

  lemma OneIsAdmitted(norm: Normalizer, isIP: string -> bool, d: string, a: string)
    requires norm(d) == Some(d) && norm(a) == Some(a) && Validate(norm, isIP, d) && Under(d, a)
    ensures Admitted(norm, isIP, Capped([d]), [a]) == [d]
  {
    assert norm([a][0]).Some? && Under(norm(d).value, norm([a][0]).value);
    assert [d][..0] == [d][1..];
  }

  lemma OneIsNotAnchored(norm: Normalizer, d: string, b: string)
    requires norm(d) == Some(d) && norm(b) == Some(b) && !Under(d, b)
    ensures !Anchored(norm, WithAllowed(norm, PluginAuth([b], [b]), [d]))
  {
    var pa := PluginAuth([b], [b]);
    assert [d][..0] == [d][1..];
    assert !Contains(norm, [b], d);
    assert WithAllowed(norm, pa, [d]) == AllowOne(norm, pa, d);
    assert AllowOne(norm, pa, d).allowed[1] == d;
    assert !IsSubdomain(norm, d, [b]);
  }
}
