/** The names of the keys: the order in which values are applied is the order of Go strings. */
module ConfigNames {
  import opened Basics
  import opened Layers
  import opened Config
  import opened ConfigLoading

  function NameOf(k: Key): string {
    match k
    case allow => "allow" case auth => "auth" case client_auth => "client_auth" case client_nosspi => "client_nosspi"
    case client_password => "client_password" case client_username => "client_username" case config => "config"
    case foreground => "foreground" case gateway => "gateway" case health_check => "health_check"
    case hostonly => "hostonly" case idle => "idle" case install => "install" case kerberos => "kerberos"
    case listen => "listen" case log => "log" case log_file => "log_file" case log_level => "log_level"
    case noproxy => "noproxy" case pac => "pac" case pac_encoding => "pac_encoding" case password => "password"
    case port => "port" case proxy => "proxy" case proxyreload => "proxyreload" case quiet => "quiet" case quit => "quit"
    case restart => "restart" case save => "save" case server => "server" case silent => "silent"
    case socktimeout => "socktimeout" case test => "test" case threads => "threads" case uninstall => "uninstall"
    case useragent => "useragent" case username => "username" case verbose => "verbose" case version => "version"
    case workers => "workers"
  }

  // ---------------------------------------------------------------- the order of strings

  /** Up to position `d` the strings agree; there the first ends or has the smaller character. */
  predicate LessAt(a: string, b: string, d: nat) {
    d <= |a| && d < |b| && (forall i :: 0 <= i < d ==> a[i] == b[i]) && (d == |a| || a[d] < b[d])
  }

  /** The order of Go strings. */
  ghost predicate Less(a: string, b: string) { exists d: nat :: LessAt(a, b, d) }

  lemma LessTransitive(a: string, b: string, c: string)
    requires Less(a, b) && Less(b, c)
    ensures Less(a, c)
  {
    var d: nat :| LessAt(a, b, d);
    var e: nat :| LessAt(b, c, e);
    assert LessAt(a, c, if d < e then d else e);
  }

  lemma LessAsymmetric(a: string, b: string)
    requires Less(a, b)
    ensures !Less(b, a) && a != b
  {
    var d: nat :| LessAt(a, b, d);
    forall e: nat ensures !LessAt(b, a, e) {}
  }

  // ---------------------------------------------------------------- the names in order

  lemma Ascending0(i: int)
    requires 0 <= i <= 1
    ensures Less(NameOf(KeyAt(i)), NameOf(KeyAt(i + 1)))
  {
    assert LessAt(NameOf(allow), NameOf(auth), 1);
    assert LessAt(NameOf(auth), NameOf(client_auth), 0);
  }

  lemma Ascending2(i: int)
    requires 2 <= i <= 3
    ensures Less(NameOf(KeyAt(i)), NameOf(KeyAt(i + 1)))
  {
    assert LessAt(NameOf(client_auth), NameOf(client_nosspi), 7);
    assert LessAt(NameOf(client_nosspi), NameOf(client_password), 7);
  }

  lemma Ascending4(i: int)
    requires 4 <= i <= 5
    ensures Less(NameOf(KeyAt(i)), NameOf(KeyAt(i + 1)))
  {
    assert LessAt(NameOf(client_password), NameOf(client_username), 7);
    assert LessAt(NameOf(client_username), NameOf(config), 1);
  }

  lemma Ascending6(i: int)
    requires 6 <= i <= 7
    ensures Less(NameOf(KeyAt(i)), NameOf(KeyAt(i + 1)))
  {
    assert LessAt(NameOf(config), NameOf(foreground), 0);
    assert LessAt(NameOf(foreground), NameOf(gateway), 0);
  }

  lemma Ascending8(i: int)
    requires 8 <= i <= 9
    ensures Less(NameOf(KeyAt(i)), NameOf(KeyAt(i + 1)))
  {
    assert LessAt(NameOf(gateway), NameOf(health_check), 0);
    assert LessAt(NameOf(health_check), NameOf(hostonly), 1);
  }

  lemma Ascending10(i: int)
    requires 10 <= i <= 11
    ensures Less(NameOf(KeyAt(i)), NameOf(KeyAt(i + 1)))
  {
    assert LessAt(NameOf(hostonly), NameOf(idle), 0);
    assert LessAt(NameOf(idle), NameOf(install), 1);
  }

  lemma Ascending12(i: int)
    requires 12 <= i <= 13
    ensures Less(NameOf(KeyAt(i)), NameOf(KeyAt(i + 1)))
  {
    assert LessAt(NameOf(install), NameOf(kerberos), 0);
    assert LessAt(NameOf(kerberos), NameOf(listen), 0);
  }

  lemma Ascending14(i: int)
    requires 14 <= i <= 15
    ensures Less(NameOf(KeyAt(i)), NameOf(KeyAt(i + 1)))
  {
    assert LessAt(NameOf(listen), NameOf(log), 1);
    assert LessAt(NameOf(log), NameOf(log_file), 3);
  }

  lemma Ascending16(i: int)
    requires 16 <= i <= 17
    ensures Less(NameOf(KeyAt(i)), NameOf(KeyAt(i + 1)))
  {
    assert LessAt(NameOf(log_file), NameOf(log_level), 4);
    assert LessAt(NameOf(log_level), NameOf(noproxy), 0);
  }

  lemma Ascending18(i: int)
    requires 18 <= i <= 19
    ensures Less(NameOf(KeyAt(i)), NameOf(KeyAt(i + 1)))
  {
    assert LessAt(NameOf(noproxy), NameOf(pac), 0);
    assert LessAt(NameOf(pac), NameOf(pac_encoding), 3);
  }

  lemma Ascending20(i: int)
    requires 20 <= i <= 21
    ensures Less(NameOf(KeyAt(i)), NameOf(KeyAt(i + 1)))
  {
    assert LessAt(NameOf(pac_encoding), NameOf(password), 2);
    assert LessAt(NameOf(password), NameOf(port), 1);
  }

  lemma Ascending22(i: int)
    requires 22 <= i <= 23
    ensures Less(NameOf(KeyAt(i)), NameOf(KeyAt(i + 1)))
  {
    assert LessAt(NameOf(port), NameOf(proxy), 1);
    assert LessAt(NameOf(proxy), NameOf(proxyreload), 5);
  }

  lemma Ascending24(i: int)
    requires 24 <= i <= 25
    ensures Less(NameOf(KeyAt(i)), NameOf(KeyAt(i + 1)))
  {
    assert LessAt(NameOf(proxyreload), NameOf(quiet), 0);
    assert LessAt(NameOf(quiet), NameOf(quit), 3);
  }

  lemma Ascending26(i: int)
    requires 26 <= i <= 27
    ensures Less(NameOf(KeyAt(i)), NameOf(KeyAt(i + 1)))
  {
    assert LessAt(NameOf(quit), NameOf(restart), 0);
    assert LessAt(NameOf(restart), NameOf(save), 0);
  }

  lemma Ascending28(i: int)
    requires 28 <= i <= 29
    ensures Less(NameOf(KeyAt(i)), NameOf(KeyAt(i + 1)))
  {
    assert LessAt(NameOf(save), NameOf(server), 1);
    assert LessAt(NameOf(server), NameOf(silent), 1);
  }

  lemma Ascending30(i: int)
    requires 30 <= i <= 31
    ensures Less(NameOf(KeyAt(i)), NameOf(KeyAt(i + 1)))
  {
    assert LessAt(NameOf(silent), NameOf(socktimeout), 1);
    assert LessAt(NameOf(socktimeout), NameOf(test), 0);
  }

  lemma Ascending32(i: int)
    requires 32 <= i <= 33
    ensures Less(NameOf(KeyAt(i)), NameOf(KeyAt(i + 1)))
  {
    assert LessAt(NameOf(test), NameOf(threads), 1);
    assert LessAt(NameOf(threads), NameOf(uninstall), 0);
  }

  lemma Ascending34(i: int)
    requires 34 <= i <= 35
    ensures Less(NameOf(KeyAt(i)), NameOf(KeyAt(i + 1)))
  {
    assert LessAt(NameOf(uninstall), NameOf(useragent), 1);
    assert LessAt(NameOf(useragent), NameOf(username), 4);
  }

  lemma Ascending36(i: int)
    requires 36 <= i <= 37
    ensures Less(NameOf(KeyAt(i)), NameOf(KeyAt(i + 1)))
  {
    assert LessAt(NameOf(username), NameOf(verbose), 0);
    assert LessAt(NameOf(verbose), NameOf(version), 3);
  }

  lemma Ascending38(i: int)
    requires 38 <= i <= 38
    ensures Less(NameOf(KeyAt(i)), NameOf(KeyAt(i + 1)))
  {
    assert LessAt(NameOf(version), NameOf(workers), 0);
  }

  lemma {:induction false} NamesAscend(i: int, j: int)
    requires 0 <= i < j < 40
    ensures Less(NameOf(KeyAt(i)), NameOf(KeyAt(j)))
    decreases j
  {
    NextIsLess(j - 1);
    if i < j - 1 {
      NamesAscend(i, j - 1);
      LessTransitive(NameOf(KeyAt(i)), NameOf(KeyAt(j - 1)), NameOf(KeyAt(j)));
    }
  }

  lemma NextIsLess(i: int)
    requires 0 <= i < 39
    ensures Less(NameOf(KeyAt(i)), NameOf(KeyAt(i + 1)))
  {
    if i <= 1 { Ascending0(i); }
    else if i <= 3 { Ascending2(i); }
    else if i <= 5 { Ascending4(i); }
    else if i <= 7 { Ascending6(i); }
    else if i <= 9 { Ascending8(i); }
    else if i <= 11 { Ascending10(i); }
    else if i <= 13 { Ascending12(i); }
    else if i <= 15 { Ascending14(i); }
    else if i <= 17 { Ascending16(i); }
    else if i <= 19 { Ascending18(i); }
    else if i <= 21 { Ascending20(i); }
    else if i <= 23 { Ascending22(i); }
    else if i <= 25 { Ascending24(i); }
    else if i <= 27 { Ascending26(i); }
    else if i <= 29 { Ascending28(i); }
    else if i <= 31 { Ascending30(i); }
    else if i <= 33 { Ascending32(i); }
    else if i <= 35 { Ascending34(i); }
    else if i <= 37 { Ascending36(i); }
    else { Ascending38(i); }
  }

  /** The rank of a key is the place of its name among the names. */
  lemma RankIsNameOrder(a: Key, b: Key)
    ensures Rank(a) < Rank(b) <==> Less(NameOf(a), NameOf(b))
  {
    KeyAtRank(a);
    KeyAtRank(b);
    if Rank(a) < Rank(b) {
      NamesAscend(Rank(a), Rank(b));
    } else if Rank(b) < Rank(a) {
      NamesAscend(Rank(b), Rank(a));
      LessAsymmetric(NameOf(b), NameOf(a));
    } else {
      NotLessItself(NameOf(a));
    }
  }

  lemma NotLessItself(a: string)
    ensures !Less(a, a)
  {
    if Less(a, a) { LessAsymmetric(a, a); }
  }

  /** The values are applied in the order of their names as strings. */
  lemma InOrderIffNamesAscend(keys: seq<Key>, values: map<Key, string>)
    requires forall k :: k in keys <==> k in values
    ensures InOrder(keys, values) <==> forall i, j :: 0 <= i < j < |keys| ==> Less(NameOf(keys[i]), NameOf(keys[j]))
  {
    forall i, j | 0 <= i < j < |keys| ensures Rank(keys[i]) < Rank(keys[j]) <==> Less(NameOf(keys[i]), NameOf(keys[j])) {
      RankIsNameOrder(keys[i], keys[j]);
    }
  }
}
