/** Block rules: src/block_rules.cpp. */
module BlockRules {
  import opened Bytes
  import opened Types

  /** The three rule collections as one value. */
  datatype Rules = Rules(ips: set<u32>, ports: set<u32>, domains: seq<bytes>)

  predicate MatchesRule(hostname: bytes, rule: bytes) {
    if hostname == rule then true else
    var suffix := [46] + rule;
    |hostname| > |suffix| && hostname[|hostname| - |suffix|..] == suffix
  }

  function PortKey(protocol: L4Protocol, port: u16): u32 {
    (protocol.Number() as int) * 0x1_0000 + port
  }

  predicate IpBlocked(rules: Rules, ip: u32) {
    ip in rules.ips
  }

  predicate PortBlocked(rules: Rules, protocol: L4Protocol, port: u16) {
    PortKey(protocol, port) in rules.ports
  }

  /** The first rule of the list that matches, or the empty string. */
  function FirstMatch(hostname: bytes, domains: seq<bytes>): bytes {
    if domains == [] then []
    else if MatchesRule(hostname, domains[0]) then domains[0]
    else FirstMatch(hostname, domains[1..])
  }

  /** A hostname is blocked when the reported rule is not the empty string. */
  predicate DomainBlocked(rules: Rules, hostname: bytes) {
    FirstMatch(hostname, rules.domains) != []
  }

  // ---- What has been asked for ---------------------------------------------------------------------

  /** One call that adds a rule. */
  datatype RuleCall = BlockIp(ip: u32) | BlockPort(protocol: L4Protocol, port: u16) | BlockDomain(domain: bytes)

  function AddRule(rules: Rules, call: RuleCall): Rules {
    match call
    case BlockIp(ip) => rules.(ips := rules.ips + {ip})
    case BlockPort(protocol, port) =>
      if protocol == TCP || protocol == UDP then rules.(ports := rules.ports + {PortKey(protocol, port)}) else rules
    case BlockDomain(domain) => rules.(domains := rules.domains + [domain])
  }

  /** The rules that some calls on an empty rule set leave. */
  function RulesOf(calls: seq<RuleCall>): Rules {
    if calls == [] then Rules({}, {}, []) else AddRule(RulesOf(calls[..|calls| - 1]), calls[|calls| - 1])
  }

  /** The domains of the calls, in order. */
  function DomainsOf(calls: seq<RuleCall>): seq<bytes> {
    if calls == [] then [] else
    var before, last := DomainsOf(calls[..|calls| - 1]), calls[|calls| - 1];
    if last.BlockDomain? then before + [last.domain] else before
  }

  lemma PortKeysDiffer()
    ensures forall p, n, q, m :: PortKey(p, n) == PortKey(q, m) ==> p == q && n == m
  {
  }

  /** An address is blocked exactly when that was asked for. */
  lemma {:induction false} IpBlockedIffAsked(calls: seq<RuleCall>, ip: u32)
    ensures IpBlocked(RulesOf(calls), ip) <==> BlockIp(ip) in calls
  {
    if calls != [] {
      var before, last := calls[..|calls| - 1], calls[|calls| - 1];
      assert calls == before + [last];
      IpBlockedIffAsked(before, ip);
    }
  }

  /** A port is blocked exactly when it was asked for under that protocol, which must be TCP or UDP. */
  lemma {:induction false} PortBlockedIffAsked(calls: seq<RuleCall>, protocol: L4Protocol, port: u16)
    ensures PortBlocked(RulesOf(calls), protocol, port) <==>
            (protocol == TCP || protocol == UDP) && BlockPort(protocol, port) in calls
  {
    if calls != [] {
      var before, last := calls[..|calls| - 1], calls[|calls| - 1];
      assert calls == before + [last];
      PortBlockedIffAsked(before, protocol, port);
      PortKeysDiffer();
      hide PortKey;
    }
  }

  /** The domain rules are the domains asked for, in that order and with repetitions. */
  lemma {:induction false} DomainsAsked(calls: seq<RuleCall>)
    ensures RulesOf(calls).domains == DomainsOf(calls)
    ensures forall d :: d in DomainsOf(calls) <==> BlockDomain(d) in calls
  {
    if calls != [] {
      var before, last := calls[..|calls| - 1], calls[|calls| - 1];
      assert calls == before + [last];
      DomainsAsked(before);
    }
  }

  // ---- The rule set in place -----------------------------------------------------------------------

  class BlockRuleSet {
    var blockedIps: set<u32>
    var blockedPorts: set<u32>
    var blockedDomains: seq<bytes>

    function Snapshot(): Rules
      reads this
    {
      Rules(blockedIps, blockedPorts, blockedDomains)
    }

    constructor ()
      ensures Snapshot() == RulesOf([])
      ensures forall ip :: !IpBlocked(Snapshot(), ip)
      ensures forall p, n :: !PortBlocked(Snapshot(), p, n)
    {
      blockedIps, blockedPorts, blockedDomains := {}, {}, [];
    }

    method AddBlockedIp(ip: u32)
      modifies this
      ensures Snapshot() == AddRule(old(Snapshot()), BlockIp(ip))
      ensures forall other :: IpBlocked(Snapshot(), other) <==> IpBlocked(old(Snapshot()), other) || other == ip
    {
      blockedIps := blockedIps + {ip};
    }

    method AddBlockedDomain(domain: bytes)
      modifies this
      ensures Snapshot() == AddRule(old(Snapshot()), BlockDomain(domain))
      ensures blockedDomains == old(blockedDomains) + [domain]
    {
      blockedDomains := blockedDomains + [domain];
    }

    /** Only TCP and UDP ports can be blocked, and a rule for one does not touch the other. */
    method AddBlockedPort(protocol: L4Protocol, port: u16)
      modifies this
      ensures Snapshot() == AddRule(old(Snapshot()), BlockPort(protocol, port))
      ensures forall p, n :: PortBlocked(Snapshot(), p, n) <==>
                             PortBlocked(old(Snapshot()), p, n) || (p == protocol && n == port && p != UNKNOWN)
    {
      PortKeysDiffer();
      if protocol == TCP || protocol == UDP {
        blockedPorts := blockedPorts + {PortKey(protocol, port)};
      }
    }

    method MatchBlockedDomain(hostname: bytes) returns (matched: bytes)
      ensures matched == FirstMatch(hostname, blockedDomains)
    {
      for i := 0 to |blockedDomains|
        invariant FirstMatch(hostname, blockedDomains) == FirstMatch(hostname, blockedDomains[i..])
      {
        if MatchesRule(hostname, blockedDomains[i]) {
          return blockedDomains[i];
        }
      }
      return [];
    }
  }

  // ---- The suffix test -------------------------------------------------------------------------------

  /** A rule matches exactly itself and every name that ends in a dot, byte 46, and the rule behind something. */
  lemma MatchesRuleIff(hostname: bytes, rule: bytes)
    ensures MatchesRule(hostname, rule) <==>
            hostname == rule || exists a: bytes :: a != [] && hostname == a + [46] + rule
  {
    if MatchesRule(hostname, rule) && hostname != rule {
      var a := hostname[..|hostname| - |rule| - 1];
      assert hostname == a + ([46] + rule) == a + [46] + rule;
    }
    if a: bytes :| a != [] && hostname == a + [46] + rule {
      assert hostname == a + ([46] + rule);
    }
  }

  // ---- Labels --------------------------------------------------------------------------------------

  /** The labels of a hostname: the pieces between the dots. */
  function Labels(s: bytes): (labels: seq<bytes>)
    ensures labels != []
  {
    if s == [] then [[]] else
    var rest := Labels(s[1..]);
    if s[0] == 46 then [[]] + rest else [[s[0]] + rest[0]] + rest[1..]
  }

  function Join(labels: seq<bytes>): bytes
    requires labels != []
  {
    if |labels| == 1 then labels[0] else labels[0] + [46] + Join(labels[1..])
  }

  lemma LabelsCons(x: u8, s: bytes)
    ensures Labels([x] + s) ==
            if x == 46 then [[]] + Labels(s) else [[x] + Labels(s)[0]] + Labels(s)[1..]
  {
    assert ([x] + s)[1..] == s;
  }

  lemma JoinCons(first: bytes, rest: seq<bytes>)
    ensures Join([first] + rest) == if rest == [] then first else first + [46] + Join(rest)
  {
    assert ([first] + rest)[1..] == rest;
  }

  lemma JoinPrepend(x: u8, first: bytes, rest: seq<bytes>)
    ensures Join([[x] + first] + rest) == [x] + Join([first] + rest)
  {
    hide Join;
    JoinCons(first, rest);
    JoinCons([x] + first, rest);
    if rest != [] { assert ([x] + first) + [46] + Join(rest) == [x] + (first + [46] + Join(rest)); }
  }

  lemma {:induction false} JoinLabels(s: bytes)
    ensures Join(Labels(s)) == s
  {
    if s == [] {
      assert Labels(s) == [[]];
    } else {
      hide Labels, Join;
      var rest := Labels(s[1..]);
      JoinLabels(s[1..]);
      assert s == [s[0]] + s[1..];
      LabelsCons(s[0], s[1..]);
      if s[0] == 46 {
        JoinCons([], rest);
      } else {
        JoinPrepend(s[0], rest[0], rest[1..]);
        assert [rest[0]] + rest[1..] == rest;
      }
    }
  }

  /** A dot between two strings separates their labels. */
  lemma {:induction false} LabelsAcrossDot(a: bytes, b: bytes)
    ensures Labels(a + [46] + b) == Labels(a) + Labels(b)
  {
    if a == [] {
      assert a + [46] + b == [46] + b;
      LabelsCons(46, b);
    } else {
      hide Labels;
      var tail := a[1..];
      LabelsAcrossDot(tail, b);
      assert a + [46] + b == [a[0]] + (tail + [46] + b);
      LabelsCons(a[0], tail + [46] + b);
      assert a == [a[0]] + tail;
      LabelsCons(a[0], tail);
      Regroup([], [a[0]], Labels(tail), Labels(b));
    }
  }

  lemma Regroup(none: bytes, x: bytes, p: seq<bytes>, q: seq<bytes>)
    requires p != []
    ensures [none] + (p + q) == [none] + p + q
    ensures [x + (p + q)[0]] + (p + q)[1..] == [x + p[0]] + p[1..] + q
  {
    assert (p + q)[1..] == p[1..] + q;
  }

  lemma {:induction false} LabelsHaveNoDot(s: bytes)
    ensures forall l :: l in Labels(s) ==> 46 !in l
  {
    if s != [] {
      var rest := Labels(s[1..]);
      LabelsHaveNoDot(s[1..]);
      assert forall l :: l in rest[1..] ==> l in rest;
      assert rest[0] in rest;
    }
  }

  lemma {:induction false} OneLabel(s: bytes)
    requires 46 !in s
    ensures Labels(s) == [s]
  {
    if s != [] {
      assert 46 !in s[1..] by { assert forall x :: x in s[1..] ==> x in s; }
      OneLabel(s[1..]);
      assert [s[0]] + s[1..] == s && s[0] in s;
      assert Labels(s) == [[s[0]] + s[1..]] + [s[1..]][1..];
    }
  }

  lemma {:induction false} LabelsOfJoin(labels: seq<bytes>)
    requires labels != [] && forall l :: l in labels ==> 46 !in l
    ensures Labels(Join(labels)) == labels
  {
    hide Labels;
    assert labels[0] in labels;
    OneLabel(labels[0]);
    if |labels| > 1 {
      assert forall l :: l in labels[1..] ==> l in labels;
      LabelsOfJoin(labels[1..]);
      LabelsAcrossDot(labels[0], Join(labels[1..]));
    } else {
      assert labels == [labels[0]];
    }
  }

  /** The labels are the one way to write a name as strings without the byte 46, joined by that byte. */
  lemma LabelsIff(s: bytes, labels: seq<bytes>)
    ensures labels == Labels(s) <==>
            labels != [] && Join(labels) == s && forall l :: l in labels ==> 46 !in l
  {
    hide Labels, Join;
    LabelsHaveNoDot(s);
    JoinLabels(s);
    if labels != [] && forall l :: l in labels ==> 46 !in l { LabelsOfJoin(labels); }
  }

  lemma {:induction false} JoinAcross(p: seq<bytes>, q: seq<bytes>)
    requires p != [] && q != []
    ensures Join(p + q) == Join(p) + [46] + Join(q)
  {
    if |p| == 1 {
      assert (p + q)[1..] == q;
    } else {
      JoinAcross(p[1..], q);
      assert (p + q)[1..] == p[1..] + q;
      assert (p[0] + [46]) + (Join(p[1..]) + [46] + Join(q)) == p[0] + [46] + Join(p[1..]) + [46] + Join(q);
    }
  }

  /** Labels p come before the rule's labels, and they are more than one empty label. */
  ghost predicate ExtendsBy(hostname: bytes, rule: bytes, p: seq<bytes>) {
    p != [] && p != [[]] && Labels(hostname) == p + Labels(rule)
  }

  ghost predicate IsSubdomain(hostname: bytes, rule: bytes) {
    hostname == rule || exists p :: ExtendsBy(hostname, rule, p)
  }

  lemma JoinOne(only: bytes)
    ensures Join([only]) == only
  {
  }

  /** A dot and the rule behind a non-empty prefix: the rule's labels behind the prefix's. */
  lemma PrefixGivesLabels(hostname: bytes, rule: bytes, a: bytes)
    requires a != [] && hostname == a + [46] + rule
    ensures ExtendsBy(hostname, rule, Labels(a))
  {
    hide Labels, Join;
    LabelsAcrossDot(a, rule);
    JoinLabels(a);
    JoinOne([]);
  }

  lemma LabelsGivePrefix(hostname: bytes, rule: bytes, p: seq<bytes>)
    requires ExtendsBy(hostname, rule, p)
    ensures Join(p) != [] && hostname == Join(p) + [46] + rule
  {
    hide Labels, Join;
    JoinLabels(hostname);
    JoinLabels(rule);
    JoinAcross(p, Labels(rule));
    if |p| == 1 {
      assert p == [p[0]];
      JoinOne(p[0]);
    } else {
      JoinCons(p[0], p[1..]);
      assert [p[0]] + p[1..] == p;
    }
  }

  /** The suffix test on characters is the suffix test on whole labels. */
  lemma MatchesRuleIffSubdomain(hostname: bytes, rule: bytes)
    ensures MatchesRule(hostname, rule) <==> IsSubdomain(hostname, rule)
  {
    MatchesRuleIff(hostname, rule);
    hide ExtendsBy, MatchesRule;
    if a: bytes :| a != [] && hostname == a + [46] + rule {
      PrefixGivesLabels(hostname, rule, a);
    }
    forall p | ExtendsBy(hostname, rule, p)
      ensures MatchesRule(hostname, rule)
    {
      LabelsGivePrefix(hostname, rule, p);
    }
  }

  /** Matching is reflexive, transitive and antisymmetric. */
  lemma MatchingIsPartialOrder(a: bytes, b: bytes, c: bytes)
    ensures MatchesRule(a, a)
    ensures MatchesRule(a, b) && MatchesRule(b, a) ==> a == b
    ensures MatchesRule(a, b) && MatchesRule(b, c) ==> MatchesRule(a, c)
  {
    if MatchesRule(a, b) && MatchesRule(b, c) && a != b && b != c {
      var s := [46] + c;
      assert a[|a| - |s|..] == a[|a| - |b| - 1..][|b| + 1 - |s|..];
      assert ([46] + b)[|b| + 1 - |s|..] == b[|b| - |s|..];
    }
  }

  // ---- The list verdict ----------------------------------------------------------------------------

  /** The reported rule is the first of the list that matches, and none is reported when none does. */
  lemma {:induction false} FirstMatchIsFirst(hostname: bytes, domains: seq<bytes>, i: nat)
    requires i <= |domains| && forall j :: 0 <= j < i ==> !MatchesRule(hostname, domains[j])
    ensures i == |domains| ==> FirstMatch(hostname, domains) == []
    ensures i < |domains| && MatchesRule(hostname, domains[i]) ==> FirstMatch(hostname, domains) == domains[i]
  {
    hide MatchesRule;
    if i > 0 {
      var rest := domains[1..];
      assert forall j :: 0 <= j < i - 1 ==> rest[j] == domains[j + 1];
      FirstMatchIsFirst(hostname, rest, i - 1);
    }
  }

  ghost predicate SomeRuleMatches(hostname: bytes, domains: seq<bytes>) {
    exists d :: d in domains && d != [] && MatchesRule(hostname, d)
  }

  /** The list holds the empty rule, and it matches: hostnames that are empty or end in a dot. */
  predicate EmptyRuleMatches(hostname: bytes, domains: seq<bytes>) {
    [] in domains && MatchesRule(hostname, [])
  }

  /** Rule i is not empty and matches, and no empty rule that matches comes before it. */
  ghost predicate BlocksAt(hostname: bytes, domains: seq<bytes>, i: nat) {
    i < |domains| && domains[i] != [] && MatchesRule(hostname, domains[i]) && !EmptyRuleMatches(hostname, domains[..i])
  }

  /** A hostname is blocked exactly when some non-empty rule matches it before any empty rule that does. */
  lemma {:induction false} BlockedIffBlocksAt(hostname: bytes, domains: seq<bytes>)
    ensures FirstMatch(hostname, domains) != [] <==> exists i :: BlocksAt(hostname, domains, i)
  {
    hide MatchesRule;
    if domains != [] {
      var rest := domains[1..];
      BlockedIffBlocksAt(hostname, rest);
      if i: nat :| BlocksAt(hostname, rest, i) && !MatchesRule(hostname, domains[0]) {
        assert domains[..i + 1] == [domains[0]] + rest[..i];
        assert BlocksAt(hostname, domains, i + 1);
      }
      if domains[0] != [] && MatchesRule(hostname, domains[0]) {
        assert BlocksAt(hostname, domains, 0);
      }
      if i: nat :| BlocksAt(hostname, domains, i) {
        if i > 0 {
          assert domains[..i] == [domains[0]] + rest[..i - 1];
          assert domains[0] in domains[..i];
          assert BlocksAt(hostname, rest, i - 1);
        }
      }
    }
  }

  /** Unless the empty rule matches, a hostname is blocked exactly when some non-empty rule matches it. */
  lemma BlockedIffSomeRule(hostname: bytes, domains: seq<bytes>)
    requires !EmptyRuleMatches(hostname, domains)
    ensures FirstMatch(hostname, domains) != [] <==> SomeRuleMatches(hostname, domains)
  {
    hide MatchesRule, FirstMatch;
    BlockedIffBlocksAt(hostname, domains);
    if SomeRuleMatches(hostname, domains) {
      var d :| d in domains && d != [] && MatchesRule(hostname, d);
      var i :| 0 <= i < |domains| && domains[i] == d;
      assert forall e :: e in domains[..i] ==> e in domains;
      assert BlocksAt(hostname, domains, i);
    }
    if i: nat :| BlocksAt(hostname, domains, i) {
      assert domains[i] in domains;
    }
  }

  // ---- What the header promises ----------------------------------------------------------------------

  /** No rule of the list matches. */
  ghost predicate NothingMatches(hostname: bytes, domains: seq<bytes>) {
    forall d :: d in domains ==> !MatchesRule(hostname, d)
  }

  /** The empty answer means that no rule matches, for every hostname, exactly when the list has no empty rule. */
  lemma EmptyAnswerIff(domains: seq<bytes>)
    ensures (forall hostname :: FirstMatch(hostname, domains) == [] ==> NothingMatches(hostname, domains)) <==>
            [] !in domains
  {
    if [] in domains {
      EmptyRuleExample(domains);
    } else {
      forall hostname | FirstMatch(hostname, domains) == []
        ensures NothingMatches(hostname, domains)
      {
        BlockedIffSomeRule(hostname, domains);
      }
    }
  }

  /** The failing input: the empty hostname, which an empty rule matches and the answer does not show. */
  lemma {:induction false} EmptyRuleExample(domains: seq<bytes>)
    requires [] in domains
    ensures FirstMatch([], domains) == [] && !NothingMatches([], domains)
  {
    OnlyEmptyMatchesEmpty(domains);
    assert MatchesRule([], []);
  }

  lemma {:induction false} OnlyEmptyMatchesEmpty(domains: seq<bytes>)
    ensures FirstMatch([], domains) == []
  {
    if domains != [] { OnlyEmptyMatchesEmpty(domains[1..]); }
  }

  /** Without an empty rule, a hostname is blocked exactly when it is one of the rules or below one of them. */
  lemma BlockedIffSubdomain(hostname: bytes, rules: Rules)
    requires [] !in rules.domains
    ensures DomainBlocked(rules, hostname) <==> exists d :: d in rules.domains && IsSubdomain(hostname, d)
  {
    hide MatchesRule, FirstMatch, IsSubdomain;
    BlockedIffSomeRule(hostname, rules.domains);
    forall d | d in rules.domains
      ensures MatchesRule(hostname, d) <==> IsSubdomain(hostname, d)
    {
      MatchesRuleIffSubdomain(hostname, d);
    }
  }

  // ---- The verdict on a hostname, from the calls -----------------------------------------------------

  /** The hostname is the domain, or ends in a dot and the domain behind something. */
  ghost predicate Covers(domain: bytes, hostname: bytes) {
    hostname == domain || exists a: bytes :: a != [] && hostname == a + [46] + domain
  }

  /** Call i blocks a domain, not the empty one, that covers the hostname, and no covering empty one comes before it. */
  ghost predicate AskedAt(calls: seq<RuleCall>, hostname: bytes, i: nat) {
    && i < |calls| && calls[i].BlockDomain? && calls[i].domain != [] && Covers(calls[i].domain, hostname)
    && !(BlockDomain([]) in calls[..i] && Covers([], hostname))
  }

  lemma MatchesIffCovers(hostname: bytes, rule: bytes)
    ensures MatchesRule(hostname, rule) <==> Covers(rule, hostname)
  {
    hide MatchesRule;
    MatchesRuleIff(hostname, rule);
  }

  lemma BlocksLast(hostname: bytes, before: seq<bytes>, d: bytes)
    ensures FirstMatch(hostname, before + [d]) != [] <==>
            FirstMatch(hostname, before) != [] ||
            (d != [] && MatchesRule(hostname, d) && !EmptyRuleMatches(hostname, before))
  {
    hide MatchesRule, EmptyRuleMatches, FirstMatch;
    var all := before + [d];
    BlockedIffBlocksAt(hostname, before);
    BlockedIffBlocksAt(hostname, all);
    assert forall i :: 0 <= i <= |before| ==> all[..i] == before[..i];
    assert before[..|before|] == before;
    assert all[|before|] == d;
    assert forall i :: BlocksAt(hostname, before, i) ==> BlocksAt(hostname, all, i);
    assert forall i: nat :: i < |before| ==> (BlocksAt(hostname, all, i) <==> BlocksAt(hostname, before, i));
    assert BlocksAt(hostname, all, |before|) <==>
           d != [] && MatchesRule(hostname, d) && !EmptyRuleMatches(hostname, before);
  }

  ghost predicate Asked(calls: seq<RuleCall>, hostname: bytes) {
    exists i :: AskedAt(calls, hostname, i)
  }

  lemma AskedLast(hostname: bytes, before: seq<RuleCall>, c: RuleCall)
    ensures Asked(before + [c], hostname) <==>
            Asked(before, hostname) ||
            (c.BlockDomain? && c.domain != [] && Covers(c.domain, hostname) &&
             !(BlockDomain([]) in before && Covers([], hostname)))
  {
    hide Covers;
    var all := before + [c];
    assert forall i :: 0 <= i <= |before| ==> all[..i] == before[..i];
    assert before[..|before|] == before;
    assert all[|before|] == c;
    assert forall i :: AskedAt(before, hostname, i) ==> AskedAt(all, hostname, i);
    assert forall i: nat :: i < |before| ==> (AskedAt(all, hostname, i) <==> AskedAt(before, hostname, i));
    assert AskedAt(all, hostname, |before|) <==>
           (c.BlockDomain? && c.domain != [] && Covers(c.domain, hostname) &&
            !(BlockDomain([]) in before && Covers([], hostname)));
  }

  /** A hostname is blocked exactly when some call asked for a domain that covers it, before any covering empty one. */
  lemma {:induction false} DomainBlockedIffAsked(calls: seq<RuleCall>, hostname: bytes)
    ensures DomainBlocked(RulesOf(calls), hostname) <==> Asked(calls, hostname)
  {
    if calls != [] {
      hide FirstMatch, MatchesRule, Covers, Asked;
      var before, last := calls[..|calls| - 1], calls[|calls| - 1];
      assert calls == before + [last];
      DomainBlockedIffAsked(before, hostname);
      AskedLast(hostname, before, last);
      DomainsAsked(before);
      MatchesIffCovers(hostname, []);
      if last.BlockDomain? {
        BlocksLast(hostname, RulesOf(before).domains, last.domain);
        MatchesIffCovers(hostname, last.domain);
      }
    }
  }

  lemma {:induction false} BlockedOnlyBySomeRule(hostname: bytes, domains: seq<bytes>)
    ensures FirstMatch(hostname, domains) != [] ==> SomeRuleMatches(hostname, domains)
  {
    if domains != [] {
      assert domains[0] in domains;
      assert forall d :: d in domains[1..] ==> d in domains;
      BlockedOnlyBySomeRule(hostname, domains[1..]);
    }
  }

  /** Every reordering of the rules gives this hostname the same verdict. */
  ghost predicate OrderIrrelevant(hostname: bytes, domains: seq<bytes>) {
    forall other: seq<bytes> :: multiset(other) == multiset(domains) ==>
      (FirstMatch(hostname, other) != [] <==> FirstMatch(hostname, domains) != [])
  }

  /** The order of the rules matters exactly when both the empty rule and some other rule match. */
  lemma OrderIrrelevantIff(hostname: bytes, domains: seq<bytes>)
    ensures OrderIrrelevant(hostname, domains) <==>
            !(EmptyRuleMatches(hostname, domains) && SomeRuleMatches(hostname, domains))
  {
    if EmptyRuleMatches(hostname, domains) && SomeRuleMatches(hostname, domains) {
      var d :| d in domains && d != [] && MatchesRule(hostname, d);
      var blocked, allowed := MoveToFront(domains, d), MoveToFront(domains, []);
      assert FirstMatch(hostname, blocked) == d && FirstMatch(hostname, allowed) == [];
    } else {
      forall other: seq<bytes> | multiset(other) == multiset(domains)
        ensures FirstMatch(hostname, other) != [] <==> FirstMatch(hostname, domains) != []
      {
        SameRules(other, domains);
        if EmptyRuleMatches(hostname, domains) {
          BlockedOnlyBySomeRule(hostname, domains);
          BlockedOnlyBySomeRule(hostname, other);
        } else {
          BlockedIffSomeRule(hostname, domains);
          BlockedIffSomeRule(hostname, other);
        }
      }
    }
  }

  lemma SameRules(a: seq<bytes>, b: seq<bytes>)
    requires multiset(a) == multiset(b)
    ensures forall d :: d in a <==> d in b
  {
    forall d
      ensures d in a <==> d in b
    {
      assert (d in a <==> d in multiset(a)) && (d in b <==> d in multiset(b));
    }
  }

  ghost function MoveToFront(domains: seq<bytes>, d: bytes): (moved: seq<bytes>)
    requires d in domains
    ensures multiset(moved) == multiset(domains) && moved != [] && moved[0] == d
  {
    var i :| 0 <= i < |domains| && domains[i] == d;
    assert domains == domains[..i] + [d] + domains[i + 1..];
    [d] + domains[..i] + domains[i + 1..]
  }
}
