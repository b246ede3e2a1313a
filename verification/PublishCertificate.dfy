/** The certificate of a published service: it names every host of the service, and
    publishing again finds the same one. */
module PublishCertificate {
  import opened Options
  import opened Collections
  import opened ServiceGraph
  import opened CertificateMatch
  import opened PublishSpec
  import opened PublishWellFormed
  import opened PublishServes

  lemma SingleBest(c: Item<Certificate>, h: string)
    ensures BestFor([c], h).Some? <==> NamesExactly(c, h) || NamesByWildcard(c, h)
  {
    BestForFound([c], h);
    if NamesExactly(c, h) || NamesByWildcard(c, h) {
      assert c in [c];
    }
  }

  lemma {:induction false} UncoveredNone(c: Item<Certificate>, hosts: seq<string>)
    requires forall h :: h in hosts ==> NamesExactly(c, h) || NamesByWildcard(c, h)
    ensures Uncovered(c, hosts) == []
  {
    if hosts != [] {
      SingleBest(c, hosts[0]);
      UncoveredNone(c, hosts[1..]);
    }
  }

  lemma {:induction false} UncoveredAre(c: Item<Certificate>, hosts: seq<string>, h: string)
    ensures h in Uncovered(c, hosts) <==> h in hosts && !NamesExactly(c, h) && !NamesByWildcard(c, h)
  {
    if hosts != [] {
      SingleBest(c, hosts[0]);
      UncoveredAre(c, hosts[1..], h);
    }
  }

  /** A certificate that names more still names what it named. */
  lemma MoreNames(c: Item<Certificate>, more: seq<string>, h: string)
    ensures var d := c.(body := c.body.(domains := c.body.domains + more));
            (NamesExactly(c, h) ==> NamesExactly(d, h)) && (NamesByWildcard(c, h) ==> NamesByWildcard(d, h))
            && (h in more ==> NamesExactly(d, h))
  {
    var d := c.(body := c.body.(domains := c.body.domains + more));
    if NamesExactly(c, h) {
      var x :| x in c.body.domains && ExactName(x, h);
      assert x in d.body.domains;
    }
    if NamesByWildcard(c, h) {
      var x :| x in c.body.domains && WildcardName(x, h);
      assert x in d.body.domains;
    }
    if h in more {
      assert h in d.body.domains && ExactName(h, h);
    }
  }

  /** Once extended, a certificate names every host of the service. */
  lemma ExtendedTwice(c: Item<Certificate>, hosts: seq<string>)
    ensures Extended(Extended(c, hosts), hosts) == Extended(c, hosts)
  {
    var d := Extended(c, hosts);
    forall h | h in hosts
      ensures NamesExactly(d, h) || NamesByWildcard(d, h)
    {
      UncoveredAre(c, hosts, h);
      MoreNames(c, Uncovered(c, hosts), h);
    }
    UncoveredNone(d, hosts);
    assert d.body.domains + [] == d.body.domains;
  }

  /** A name added to a certificate that covers a host is not that host. */
  lemma ExtendedExact(c: Item<Certificate>, hosts: seq<string>, host: string)
    requires NamesByWildcard(c, host) && !NamesExactly(c, host)
    ensures !NamesExactly(Extended(c, hosts), host)
  {
    var d := Extended(c, hosts);
    if NamesExactly(d, host) {
      var x :| x in d.body.domains && ExactName(x, host);
      SameWildcard(c, x, host);
      UncoveredAre(c, hosts, x);
    }
  }

  lemma SameWildcard(c: Item<Certificate>, x: string, host: string)
    requires ExactName(x, host) && NamesByWildcard(c, host)
    ensures NamesByWildcard(c, x)
  {
    var w :| w in c.body.domains && WildcardName(w, host);
    SameClean(x, host);
    assert WildcardName(w, x);
  }

  lemma ExactAfter(certs: seq<Item<Certificate>>, x: Item<Certificate>, host: string)
    requires Distinct(certs) && NamesExactly(x, host)
    requires var f := FirstExact(certs, host); if f.Some? then f.value.id == x.id else x.id !in Ids(certs)
    ensures BestFor(Upsert(certs, x), host) == Some(Choice(x, true))
  {
    FirstAfter(certs, x, c => NamesExactly(c, host));
  }

  lemma WildcardAfter(certs: seq<Item<Certificate>>, x: Item<Certificate>, host: string)
    requires Distinct(certs) && NamesByWildcard(x, host) && !NamesExactly(x, host)
    requires FirstExact(certs, host).None?
    requires var f := FirstWildcard(certs, host); f.Some? && f.value.id == x.id
    ensures BestFor(Upsert(certs, x), host) == Some(Choice(x, false))
  {
    StillNone(certs, x, c => NamesExactly(c, host));
    FirstAfter(certs, x, c => NamesByWildcard(c, host));
  }

  lemma BestAfterExtended(certs: seq<Item<Certificate>>, host: string, hosts: seq<string>)
    requires Distinct(certs) && BestFor(certs, host).Some?
    ensures var x := Extended(BestFor(certs, host).value.cert, hosts);
            BestFor(Upsert(certs, x), host).Some? && BestFor(Upsert(certs, x), host).value.cert == x
  {
    var c := BestFor(certs, host).value.cert;
    var x := Extended(c, hosts);
    MoreNames(c, Uncovered(c, hosts), host);
    if FirstExact(certs, host).Some? {
      assert NamesExactly(c, host);
      ExactAfter(certs, x, host);
    } else {
      assert NamesByWildcard(c, host);
      NotExact(certs, c, host);
      ExtendedExact(c, hosts, host);
      WildcardAfter(certs, x, host);
    }
  }

  lemma NotExact(certs: seq<Item<Certificate>>, c: Item<Certificate>, host: string)
    requires FirstExact(certs, host).None? && c in certs
    ensures !NamesExactly(c, host)
  {
    NoneFits(certs, k => NamesExactly(k, host), c);
  }

  lemma {:induction false} AddHostsHave(hosts: seq<string>, urls: seq<Url>, h: string)
    requires h in hosts
    ensures h in AddHosts(hosts, urls)
    decreases |urls|
  {
    if urls != [] {
      AddHostsHave(if HostKnown(urls[0].host, hosts) then hosts else hosts + [urls[0].host], urls[1..], h);
    }
  }

  lemma FirstHost(r: Request)
    requires r.urls != []
    ensures r.urls[0].host in Hosts(r)
  {
    assert !HostKnown(r.urls[0].host, []);
    AddHostsHave([] + [r.urls[0].host], r.urls[1..], r.urls[0].host);
  }

  lemma NewCovers(r: Request, c: Item<Certificate>)
    requires r.urls != [] && c.body.domains == Hosts(r)
    ensures NamesExactly(c, r.urls[0].host) && Extended(c, Hosts(r)) == c
  {
    FirstHost(r);
    forall h | h in Hosts(r)
      ensures NamesExactly(c, h)
    {
      assert h in c.body.domains && ExactName(h, h);
    }
    UncoveredNone(c, Hosts(r));
    assert c.body.domains + [] == c.body.domains;
  }

  /** The certificate is the same the second time. */
  lemma CertificateAgain(r: Request, mint: Mint, certs: seq<Item<Certificate>>)
    requires r.urls != [] && Generates(mint) && Distinct(certs) && !r.newCertificate
    ensures var c := CertificateFor(r, mint, certs, []);
            CertificateFor(r, mint, Upsert(certs, c), []) == c && Upsert(Upsert(certs, c), c) == Upsert(certs, c)
  {
    var c := CertificateFor(r, mint, certs, []);
    var host := r.urls[0].host;
    UpsertLookup(certs, c, c.id);
    UpsertSame(Upsert(certs, c), c);
    if r.certificateId != "" && Lookup(certs, r.certificateId).Some? {
    } else {
      if BestFor(certs, host).Some? {
        BestAfterExtended(certs, host, Hosts(r));
        ExtendedTwice(BestFor(certs, host).value.cert, Hosts(r));
      } else {
        NewCovers(r, c);
        ExactAfter(certs, c, host);
      }
      if r.certificateId != "" {
        UpsertLookup(certs, c, r.certificateId);
      }
    }
  }

  /** Unless one is chosen by id, the certificate names every host of the service. */
  lemma CertificateCovers(r: Request, mint: Mint, certs: seq<Item<Certificate>>, formerHosts: seq<string>, h: string)
    requires r.urls != [] && h in Hosts(r)
    requires r.certificateId == "" || Lookup(certs, r.certificateId).None?
    ensures var c := CertificateFor(r, mint, certs, formerHosts); NamesExactly(c, h) || NamesByWildcard(c, h)
  {
    var c := CertificateFor(r, mint, certs, formerHosts);
    var best := BestFor(certs, r.urls[0].host);
    if !r.newCertificate && best.Some? {
      UncoveredAre(best.value.cert, Hosts(r), h);
      MoreNames(best.value.cert, Uncovered(best.value.cert, Hosts(r)), h);
    } else {
      assert c.body.domains == Hosts(r);
      assert h in c.body.domains && ExactName(h, h);
    }
  }

  /** A certificate that has been issued keeps every name it was issued for. */
  lemma IssuedKeepsNames(r: Request, mint: Mint, certs: seq<Item<Certificate>>, formerHosts: seq<string>,
          c: Item<Certificate>)
    requires r.urls != [] && Generates(mint) && Distinct(certs) && c in certs && c.body.issued
    ensures var after := Upsert(certs, CertificateFor(r, mint, certs, formerHosts));
            Lookup(after, c.id).Some? && forall d :: d in c.body.domains ==> d in Lookup(after, c.id).value.body.domains
  {
    var x := CertificateFor(r, mint, certs, formerHosts);
    UpsertLookup(certs, x, c.id);
    DistinctLookup(certs, c);
    if x.id == c.id {
      ChosenKeepsNames(r, mint, certs, formerHosts, c);
    }
  }

  lemma ChosenKeepsNames(r: Request, mint: Mint, certs: seq<Item<Certificate>>, formerHosts: seq<string>,
          c: Item<Certificate>)
    requires r.urls != [] && Generates(mint) && Distinct(certs) && c in certs && c.body.issued
    requires CertificateFor(r, mint, certs, formerHosts).id == c.id
    ensures forall d :: d in c.body.domains ==> d in CertificateFor(r, mint, certs, formerHosts).body.domains
  {
    if Renames(r, certs, formerHosts, c) {
      StaleFound(certs, formerHosts, r.urls[0].host);
    }
    forall d | d in c.body.domains
      ensures d in CertificateFor(r, mint, certs, formerHosts).body.domains
    {
      ChosenNames(r, mint, certs, formerHosts, c, d);
    }
  }

  /** Told before publishing: is this the certificate that, if one is wanted, is given
      the new names? It was never issued and is for a name alone that the service no
      longer starts with; who else needs that name is not asked. */
  predicate Renames(r: Request, certs: seq<Item<Certificate>>, formerHosts: seq<string>, c: Item<Certificate>)
    requires r.urls != []
  {
    (r.certificateId == "" || Lookup(certs, r.certificateId).None?)
    && (r.newCertificate || BestFor(certs, r.urls[0].host).None?)
    && Stale(certs, formerHosts, r.urls[0].host) == Some(c)
  }

  lemma ChosenNames(r: Request, mint: Mint, certs: seq<Item<Certificate>>, formerHosts: seq<string>,
          c: Item<Certificate>, d: string)
    requires r.urls != [] && Generates(mint) && Distinct(certs) && c in certs && d in c.body.domains
    requires CertificateFor(r, mint, certs, formerHosts).id == c.id
    ensures d in CertificateFor(r, mint, certs, formerHosts).body.domains
       <==> (Renames(r, certs, formerHosts, c) ==> d in Hosts(r))
  {
    var host := r.urls[0].host;
    DistinctLookup(certs, c);
    assert c.id in Ids(certs);
    if r.certificateId != "" && Lookup(certs, r.certificateId).Some? {
    } else if !r.newCertificate && BestFor(certs, host).Some? {
      DistinctLookup(certs, BestFor(certs, host).value.cert);
    } else if Stale(certs, formerHosts, host).Some? {
      StaleFound(certs, formerHosts, host);
      DistinctLookup(certs, Stale(certs, formerHosts, host).value);
    }
  }

  lemma OtherNotRenamed(r: Request, mint: Mint, certs: seq<Item<Certificate>>, formerHosts: seq<string>,
          c: Item<Certificate>)
    requires r.urls != [] && CertificateFor(r, mint, certs, formerHosts).id != c.id
    ensures !Renames(r, certs, formerHosts, c)
  {
  }

  /** A certificate loses a name exactly when it is given the service's names and this
      is none of them. */
  lemma NamesKept(g: Graph, r: Request, mint: Mint, c: Item<Certificate>, d: string)
    requires r.urls != [] && !IsTcp(r) && Generates(mint) && WellFormed(g) && Published(g, r, mint).Some?
    requires c in g.certificates && d in c.body.domains
    ensures var now := Lookup(Published(g, r, mint).value.certificates, c.id);
            now.Some?
            && (d in now.value.body.domains
                <==> (WantsCertificate(r) && Renames(r, g.certificates, OldHostsOf(g, r), c) ==> d in Hosts(r)))
  {
    var certs, former := g.certificates, OldHostsOf(g, r);
    PublishedParts(g, r, mint);
    DistinctLookup(certs, c);
    if WantsCertificate(r) {
      var x := CertificateFor(r, mint, certs, former);
      CertificatesPut(g, r, mint);
      UpsertLookup(certs, x, c.id);
      if x.id == c.id {
        ChosenNames(r, mint, certs, former, c, d);
      } else {
        OtherNotRenamed(r, mint, certs, former, c);
      }
    }
  }

  lemma CertificatesPut(g: Graph, r: Request, mint: Mint)
    requires r.urls != []
    ensures RoutingOf(g, r, mint).graph.certificates == if WantsCertificate(r)
              then Upsert(g.certificates, CertificateFor(r, mint, g.certificates, OldHostsOf(g, r)))
              else g.certificates
  {
  }
}
