/** Vetting a webhook target and dialling only what was vetted. */
module SafeTarget {
  import opened Text
  import opened IpText
  import opened UrlGuard

  /** What `new URL` yields of a raw URL: the protocol and the host name. */
  datatype Url = Url(protocol: string, hostname: string)

  datatype Target = Target(url: Url, hostname: string, addresses: seq<string>)

  /** `[...new Set(xs)]`. */
  function Distinct(xs: seq<string>): (r: seq<string>)
    ensures forall x :: x in r <==> x in xs
    ensures forall i, j :: 0 <= i < j < |r| ==> r[i] != r[j]
  {
    if xs == [] then []
    else
      var r := Distinct(xs[..|xs| - 1]);
      if xs[|xs| - 1] in r then r else r + [xs[|xs| - 1]]
  }

  function BareHost(host: string): string {
    if "[" <= host && EndsWith(host, "]") && |host| >= 2 then host[1..|host| - 1] else host
  }

  /** One lookup at most, and every address it returned has passed the range check. */
  function ResolveSafeTarget(url: Option<Url>, allowlist: seq<string>, lookup: string -> Option<seq<string>>,
                             prefixes: seq<string>): Result<Target>
  {
    if url.None? then Throws
    else if url.value.protocol != "https:" && url.value.protocol != "http:" then Throws
    else
      var host := Lower(url.value.hostname);
      if host == "" then Throws
      else if |allowlist| > 0 && host !in allowlist then Throws
      else
        var bare := BareHost(host);
        if IsIP(bare) != 0 then
          if IsBlocked(bare, prefixes) then Throws else Ok(Target(url.value, bare, [bare]))
        else
          var resolved := lookup(bare);
          if resolved.None? || |resolved.value| == 0 then Throws
          else if exists a <- resolved.value :: IsBlocked(a, prefixes) then Throws
          else Ok(Target(url.value, bare, Distinct(resolved.value)))
  }

  datatype Dialled = Refused | One(address: string, family: nat) | Many(entries: seq<(string, nat)>)

  function Entries(addresses: seq<string>, wanted: nat): seq<(string, nat)> {
    if addresses == [] then []
    else
      var family := if ':' in addresses[0] then 6 else 4;
      (if wanted == 0 || family == wanted then [(addresses[0], family)] else []) + Entries(addresses[1..], wanted)
  }

  /** The connect-time lookup: it answers from the given addresses only. */
  function PinnedLookup(addresses: seq<string>, family: nat, all: bool): Dialled {
    var usable := Entries(addresses, if family == 4 || family == 6 then family else 0);
    if usable == [] then Refused
    else if all then Many(usable)
    else One(usable[0].0, usable[0].1)
  }

  lemma {:induction false} EntriesVetted(addresses: seq<string>, wanted: nat)
    ensures forall e <- Entries(addresses, wanted) :: e.0 in addresses && (wanted != 0 ==> e.1 == wanted)
    ensures wanted == 0 ==> |Entries(addresses, wanted)| == |addresses|
  {
    if addresses != [] { EntriesVetted(addresses[1..], wanted); }
  }

  ghost predicate Reaches(d: Dialled, a: string) {
    match d
    case Refused => false
    case One(b, _) => a == b
    case Many(es) => exists e <- es :: e.0 == a
  }

  /** Every address a request to a vetted target can be dialled at is an IP address outside the
      blocked ranges, and is the literal itself or one of the answers of the single lookup. A
      target is never left without an address. */
  lemma DialsOnlyVetted(url: Option<Url>, allowlist: seq<string>, lookup: string -> Option<seq<string>>,
                        prefixes: seq<string>, family: nat, all: bool, a: string)
    requires ResolveSafeTarget(url, allowlist, lookup, prefixes).Ok?
    ensures var t := ResolveSafeTarget(url, allowlist, lookup, prefixes).value;
      && t.addresses != []
      && (Reaches(PinnedLookup(t.addresses, family, all), a) ==>
            && IsIP(a) != 0 && !IsBlocked(a, prefixes)
            && (a == t.hostname || (lookup(t.hostname).Some? && a in lookup(t.hostname).value)))
      && (family != 4 && family != 6 ==> PinnedLookup(t.addresses, family, all) != Refused)
  {
    hide IsIP, BareHost, Lower, IsIPv4, IsIPv6;
    var t := ResolveSafeTarget(url, allowlist, lookup, prefixes).value;
    EntriesVetted(t.addresses, if family == 4 || family == 6 then family else 0);
    assert t.addresses[0] in t.addresses by { TargetNotEmpty(url, allowlist, lookup, prefixes); }
    if Reaches(PinnedLookup(t.addresses, family, all), a) {
      assert a in t.addresses;
      NotBlockedIsIP(a, prefixes);
    }
  }

  lemma TargetNotEmpty(url: Option<Url>, allowlist: seq<string>, lookup: string -> Option<seq<string>>,
                       prefixes: seq<string>)
    requires ResolveSafeTarget(url, allowlist, lookup, prefixes).Ok?
    ensures ResolveSafeTarget(url, allowlist, lookup, prefixes).value.addresses != []
  {
    hide IsIP, BareHost, Lower, IsBlocked;
    var t := ResolveSafeTarget(url, allowlist, lookup, prefixes).value;
    if IsIP(t.hostname) == 0 {
      var resolved := lookup(t.hostname).value;
      assert resolved[0] in resolved && resolved[0] in t.addresses;
    }
  }

  /** Text that is no address at all is blocked. */
  lemma NotBlockedIsIP(a: string, prefixes: seq<string>)
    requires !IsBlocked(a, prefixes)
    ensures IsIP(a) != 0
  {
    hide IsIP, EmbeddedV4;
  }

  // ---- exactly which targets are safe, and what the pinned lookup answers

  /** An http or https URL with a host the allow-list, if there is one, names in lower case. */
  predicate Permitted(u: Url, allowlist: seq<string>) {
    && (u.protocol == "https:" || u.protocol == "http:") && u.hostname != ""
    && (allowlist != [] ==> Lower(u.hostname) in allowlist)
  }

  /** The addresses a host can have: itself, or the answers of the one lookup. */
  function Candidates(host: string, lookup: string -> Option<seq<string>>): Option<seq<string>> {
    if IsIP(host) != 0 then Some([host]) else lookup(host)
  }

  predicate AllSafe(addresses: seq<string>, prefixes: seq<string>) { forall a <- addresses :: !IsBlocked(a, prefixes) }

  /** A target is resolved exactly when its URL is permitted and every address it can have, at least one, is
      outside the blocked ranges. */
  lemma ResolvesIff(url: Option<Url>, allowlist: seq<string>, lookup: string -> Option<seq<string>>,
                    prefixes: seq<string>)
    ensures ResolveSafeTarget(url, allowlist, lookup, prefixes).Ok? <==>
      && url.Some? && Permitted(url.value, allowlist)
      && Candidates(BareHost(Lower(url.value.hostname)), lookup).Some?
      && Candidates(BareHost(Lower(url.value.hostname)), lookup).value != []
      && AllSafe(Candidates(BareHost(Lower(url.value.hostname)), lookup).value, prefixes)
  {
    hide IsBlocked, IsIP, BareHost;
    if url.Some? {
      assert |Lower(url.value.hostname)| == |url.value.hostname|;
      assert [BareHost(Lower(url.value.hostname))][0] in [BareHost(Lower(url.value.hostname))];
    }
  }

  /** Its addresses are then exactly these, without repetition. */
  lemma ResolvedIs(url: Option<Url>, allowlist: seq<string>, lookup: string -> Option<seq<string>>,
                   prefixes: seq<string>)
    requires ResolveSafeTarget(url, allowlist, lookup, prefixes).Ok?
    ensures var t := ResolveSafeTarget(url, allowlist, lookup, prefixes).value;
      && url == Some(t.url) && t.hostname == BareHost(Lower(t.url.hostname))
      && Candidates(t.hostname, lookup).Some?
      && (forall a :: a in t.addresses <==> a in Candidates(t.hostname, lookup).value)
      && (forall i, j :: 0 <= i < j < |t.addresses| ==> t.addresses[i] != t.addresses[j])
  {
    hide IsBlocked, IsIP, BareHost;
  }

  /** The order of first occurrences is kept: the addresses of a front come first. */
  lemma {:induction false} FirstsFirst(xs: seq<string>, i: nat)
    requires i <= |xs|
    ensures Distinct(xs[..i]) <= Distinct(xs)
    decreases |xs|
  {
    if i < |xs| {
      var front := xs[..|xs| - 1];
      assert front[..i] == xs[..i];
      FirstsFirst(front, i);
    } else {
      assert xs[..i] == xs;
    }
  }

  /** One pair of brackets is taken off, as around an IPv6 literal in a URL. */
  lemma BracketsOff(h: string)
    ensures BareHost("[" + h + "]") == h
    ensures h == "" || h[0] != '[' || h[|h| - 1] != ']' ==> BareHost(h) == h
  {
    var s := "[" + h + "]";
    assert s[|s| - 1..] == "]" && s[1..|s| - 1] == h;
  }

  predicate Usable(a: string, family: nat, wanted: nat) {
    family == (if ':' in a then 6 else 4) && (wanted == 4 || wanted == 6 ==> family == wanted)
  }

  lemma {:induction false} EntriesAre(addresses: seq<string>, wanted: nat, a: string, family: nat)
    requires wanted == 0 || wanted == 4 || wanted == 6
    ensures (a, family) in Entries(addresses, wanted) <==> a in addresses && Usable(a, family, wanted)
  {
    if addresses != [] {
      EntriesAre(addresses[1..], wanted, a, family);
      assert addresses == [addresses[0]] + addresses[1..];
    }
  }

  predicate FirstUsable(addresses: seq<string>, wanted: nat, i: nat)
    requires i < |addresses|
  {
    && Usable(addresses[i], if ':' in addresses[i] then 6 else 4, wanted)
    && forall j :: 0 <= j < i ==> !Usable(addresses[j], if ':' in addresses[j] then 6 else 4, wanted)
  }

  lemma {:induction false} FirstEntry(addresses: seq<string>, wanted: nat)
    requires wanted == 0 || wanted == 4 || wanted == 6
    ensures Entries(addresses, wanted) != [] ==>
      exists i :: 0 <= i < |addresses| && FirstUsable(addresses, wanted, i)
                  && addresses[i] == Entries(addresses, wanted)[0].0
  {
    if addresses != [] {
      if Usable(addresses[0], if ':' in addresses[0] then 6 else 4, wanted) {
        assert FirstUsable(addresses, wanted, 0);
      } else {
        FirstEntry(addresses[1..], wanted);
        if Entries(addresses, wanted) != [] {
          var i: nat :| i < |addresses[1..]| && FirstUsable(addresses[1..], wanted, i)
                        && addresses[1..][i] == Entries(addresses, wanted)[0].0;
          assert FirstUsable(addresses, wanted, i + 1) by {
            forall j | 0 <= j < i + 1 ensures !Usable(addresses[j], if ':' in addresses[j] then 6 else 4, wanted) {
              if j > 0 { assert addresses[j] == addresses[1..][j - 1]; }
            }
          }
        }
      }
    }
  }

  /** The connect-time lookup refuses exactly when no address is of the wanted family; asked for all it gives
      every usable address with its family, asked for one the first of these. */
  lemma PinnedIs(addresses: seq<string>, wanted: nat, all: bool)
    ensures var d := PinnedLookup(addresses, wanted, all);
      && (d.Refused? <==> forall a <- addresses :: !Usable(a, if ':' in a then 6 else 4, wanted))
      && (d.Many? ==> all)
      && (d.Many? ==> forall a: string, f: nat :: (a, f) in d.entries <==> a in addresses && Usable(a, f, wanted))
      && (d.One? ==> !all && d.address in addresses && Usable(d.address, d.family, wanted))
      && (d.One? ==> exists i :: 0 <= i < |addresses| && FirstUsable(addresses, wanted, i) && addresses[i] == d.address)
  {
    FirstEntry(addresses, if wanted == 4 || wanted == 6 then wanted else 0);
    var w := if wanted == 4 || wanted == 6 then wanted else 0;
    var entries := Entries(addresses, w);
    forall a: string, f: nat ensures (a, f) in entries <==> a in addresses && Usable(a, f, wanted) {
      EntriesAre(addresses, w, a, f);
    }
    if entries != [] {
      assert (entries[0].0, entries[0].1) == entries[0] && entries[0] in entries;
    } else {
      forall a | a in addresses ensures !Usable(a, if ':' in a then 6 else 4, wanted) {
        assert (a, if ':' in a then 6 else 4) !in entries;
      }
    }
  }
}
