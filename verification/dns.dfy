/**
 * Model of cmd/hop/dns.go: which A/CNAME records of the account's DNS
 * zones serve the pull zone's hostnames, and the per-hostname verdict of
 * `hop check`. The zone list is an input (the API call is not modelled).
 */
module Dns {
  import opened Wrappers
  import opened Text
  import Bunny
  import EdgeRules

  datatype DNSRecord = DNSRecord(Id: int, Type: int, Name: string, Value: string, TTL: int)
  datatype DNSZone = DNSZone(Id: int, Domain: string, Records: seq<DNSRecord>)
  datatype DNSRecordFormatted = DNSRecordFormatted(Name: string, Type: string, Value: string, TTL: int)
  datatype DNSValidationResult = DNSValidationResult(Hostname: string, HasRecord: bool, RecordType: string, RecordValue: string)

  /** The result of a check: what needs attention and what is fine. */
  datatype CheckResult = CheckResult(Issues: seq<EdgeRules.CheckIssue>, Successful: seq<EdgeRules.CheckIssue>)

  // ---------------------------------------------------------------------
  // Record types and hostnames
  // ---------------------------------------------------------------------

  /** The record type codes with a name of their own (6 has none). */
  const RecordTypeNames: map<int, string> := map[
    0 := "A", 1 := "AAAA", 2 := "CNAME", 3 := "TXT", 4 := "MX", 5 := "RDR",
    7 := "PZ", 8 := "SRV", 9 := "CAA", 10 := "PTR", 11 := "SCR", 12 := "NS"]

  function FormatDNSRecordType(recordType: int): (r: string)
    ensures recordType in RecordTypeNames ==> r == RecordTypeNames[recordType]
    ensures recordType !in RecordTypeNames ==> r == "TYPE" + IntToString(recordType)
    ensures r == "A" || r == "CNAME" <==> IsTargetRecordType(recordType)
  {
    match recordType
    case 0 => "A"
    case 1 => "AAAA"
    case 2 => "CNAME"
    case 3 => "TXT"
    case 4 => "MX"
    case 5 => "RDR"
    case 7 => "PZ"
    case 8 => "SRV"
    case 9 => "CAA"
    case 10 => "PTR"
    case 11 => "SCR"
    case 12 => "NS"
    case _ => var r := "TYPE" + IntToString(recordType); assert r[0] == 'T'; r
  }

  /** A and CNAME records are the ones that can serve a hostname. */
  predicate IsTargetRecordType(recordType: int)
  {
    recordType == 0 || recordType == 2
  }

  /** The name of an A or CNAME record type. */
  function TargetTypeName(recordType: int): string
    requires IsTargetRecordType(recordType)
  {
    if recordType == 0 then "A" else "CNAME"
  }

  /** On the two target types, the short name is the one `formatDNSRecordType` prints. */
  lemma TargetTypeNameFormats(recordType: int)
    requires IsTargetRecordType(recordType)
    ensures TargetTypeName(recordType) == FormatDNSRecordType(recordType)
  {
  }

  function NormalizeHostname(hostname: string): (r: string)
    ensures |r| == |hostname| && ToLower(r) == r
    ensures forall i :: 0 <= i < |r| ==> r[i] == LowerChar(hostname[i])
    ensures forall i :: 0 <= i < |r| ==> !('A' <= r[i] <= 'Z')
  {
    ToLower(hostname)
  }

  /** The set `createHostnameMap` builds: the lower-cased hostnames. */
  ghost function HostnameSet(hostnames: seq<Bunny.Hostname>): set<string>
  {
    set i | 0 <= i < |hostnames| :: NormalizeHostname(hostnames[i].Value)
  }

  /** A lookup in the hostname map; an absent key reads as false. */
  predicate InMap(hostnameMap: map<string, bool>, name: string)
  {
    name in hostnameMap && hostnameMap[name]
  }

  method CreateHostnameMap(hostnames: seq<Bunny.Hostname>) returns (hostnameMap: map<string, bool>)
    ensures hostnameMap.Keys == HostnameSet(hostnames)
    ensures forall k :: k in hostnameMap ==> hostnameMap[k]
  {
    hostnameMap := map[];
    for i := 0 to |hostnames|
      invariant hostnameMap.Keys == HostnameSet(hostnames[..i])
      invariant forall k :: k in hostnameMap ==> hostnameMap[k]
    {
      assert HostnameSet(hostnames[..i + 1]) == HostnameSet(hostnames[..i]) + {NormalizeHostname(hostnames[i].Value)} by {
        assert forall j :: 0 <= j < i ==> hostnames[..i + 1][j] == hostnames[..i][j];
      }
      hostnameMap := hostnameMap[NormalizeHostname(hostnames[i].Value) := true];
    }
    assert hostnames[..|hostnames|] == hostnames;
  }

  /** The hostname map never has more keys than there are hostnames. */
  lemma {:induction false} HostnameSetSize(hostnames: seq<Bunny.Hostname>)
    ensures |HostnameSet(hostnames)| <= |hostnames|
    decreases |hostnames|
  {
    if hostnames != [] {
      var n := |hostnames| - 1;
      HostnameSetSize(hostnames[..n]);
      assert HostnameSet(hostnames) == HostnameSet(hostnames[..n]) + {NormalizeHostname(hostnames[n].Value)} by {
        assert forall k :: 0 <= k < n ==> hostnames[..n][k] == hostnames[k];
      }
    }
  }

  /**
   * Hostnames that differ only in letter case occupy one key, so two such
   * entries leave the map with fewer keys than there are hostnames.
   */
  lemma CaseVariantsCollapse(hostnames: seq<Bunny.Hostname>, i: nat, j: nat)
    requires i < |hostnames| && j < |hostnames|
    requires EqualFold(hostnames[i].Value, hostnames[j].Value)
    ensures NormalizeHostname(hostnames[i].Value) == NormalizeHostname(hostnames[j].Value)
    ensures NormalizeHostname(hostnames[i].Value) in HostnameSet(hostnames)
    ensures i != j ==> |HostnameSet(hostnames)| < |hostnames|
  {
    if i != j {
      var rest := hostnames[..j] + hostnames[j + 1..];
      assert forall k :: 0 <= k < j ==> rest[k] == hostnames[k];
      assert forall k :: j <= k < |rest| ==> rest[k] == hostnames[k + 1];
      var i' := if i < j then i else i - 1;
      assert rest[i'] == hostnames[i];
      forall x | x in HostnameSet(hostnames)
        ensures x in HostnameSet(rest)
      {
        var k :| 0 <= k < |hostnames| && x == NormalizeHostname(hostnames[k].Value);
        if k < j {
          assert rest[k] == hostnames[k];
        } else if k > j {
          assert rest[k - 1] == hostnames[k];
        } else {
          assert x == NormalizeHostname(rest[i'].Value);
        }
      }
      HostnameSetSize(rest);
      assert HostnameSet(rest) <= HostnameSet(hostnames);
      assert HostnameSet(hostnames) == HostnameSet(rest);
    }
  }

  // ---------------------------------------------------------------------
  // filterMatchingDNSRecords
  // ---------------------------------------------------------------------

  /**
   * The names a record is tried under: its own name, and for a relative
   * name (no dot, not the zone domain) also the name qualified by the domain.
   */
  function CandidateNames(record: DNSRecord, domain: string): (names: seq<string>)
    ensures 1 <= |names| <= 2 && names[0] == record.Name
    ensures |names| == 2 <==> record.Name != domain && !Contains(record.Name, ".")
    ensures |names| == 2 ==> names[1] == record.Name + "." + domain
  {
    [record.Name] + (if record.Name != domain && !Contains(record.Name, ".") then [record.Name + "." + domain] else [])
  }

  /** The first candidate whose normalised form is in the map. */
  function FirstMatchingName(names: seq<string>, hostnameMap: map<string, bool>): (r: Option<string>)
    ensures r.Some? ==> r.value in names && InMap(hostnameMap, NormalizeHostname(r.value))
    ensures r.Some? ==> exists i :: 0 <= i < |names| && names[i] == r.value &&
                          forall j :: 0 <= j < i ==> !InMap(hostnameMap, NormalizeHostname(names[j]))
    ensures r.None? <==> forall n :: n in names ==> !InMap(hostnameMap, NormalizeHostname(n))
    decreases |names|
  {
    if names == [] then None
    else if InMap(hostnameMap, NormalizeHostname(names[0])) then Some(names[0])
    else
      var rest := FirstMatchingName(names[1..], hostnameMap);
      if rest.Some? then
        ghost var i :| 0 <= i < |names[1..]| && names[1..][i] == rest.value &&
                       forall j :: 0 <= j < i ==> !InMap(hostnameMap, NormalizeHostname(names[1..][j]));
        assert names[i + 1] == rest.value;
        assert forall j :: 1 <= j < i + 1 ==> names[j] == names[1..][j - 1];
        rest
      else rest
  }

  /** The output for one record of a zone: at most one, and only for A and CNAME records. */
  function RecordMatch(record: DNSRecord, domain: string, hostnameMap: map<string, bool>): (r: seq<DNSRecordFormatted>)
    ensures |r| <= 1
    ensures !IsTargetRecordType(record.Type) ==> r == []
    ensures |r| == 1 <==> IsTargetRecordType(record.Type) &&
                          exists n :: n in CandidateNames(record, domain) && InMap(hostnameMap, NormalizeHostname(n))
    ensures |r| == 1 ==> (r[0].Name == record.Name <==> InMap(hostnameMap, NormalizeHostname(record.Name)))
    ensures forall out :: out in r ==>
      && out.Type == (if record.Type == 0 then "A" else "CNAME")
      && out.Value == record.Value && out.TTL == record.TTL
      && out.Name in CandidateNames(record, domain)
      && InMap(hostnameMap, NormalizeHostname(out.Name))
  {
    if !IsTargetRecordType(record.Type) then []
    else
      match FirstMatchingName(CandidateNames(record, domain), hostnameMap)
      case None => []
      case Some(name) => [DNSRecordFormatted(name, TargetTypeName(record.Type), record.Value, record.TTL)]
  }

  function ZoneMatches(records: seq<DNSRecord>, domain: string, hostnameMap: map<string, bool>): (r: seq<DNSRecordFormatted>)
    ensures |r| <= |records|
    decreases |records|
  {
    if records == [] then []
    else ZoneMatches(records[..|records| - 1], domain, hostnameMap) + RecordMatch(records[|records| - 1], domain, hostnameMap)
  }

  /** The matches of all zones, zone by zone and record by record. */
  function MatchingRecords(zones: seq<DNSZone>, hostnameMap: map<string, bool>): seq<DNSRecordFormatted>
    decreases |zones|
  {
    if zones == [] then []
    else MatchingRecords(zones[..|zones| - 1], hostnameMap) +
         ZoneMatches(zones[|zones| - 1].Records, zones[|zones| - 1].Domain, hostnameMap)
  }

  /** Every match is an A or CNAME record whose matched name is one of the hostnames. */
  lemma {:induction false} MatchingRecordsAreTargets(zones: seq<DNSZone>, hostnameMap: map<string, bool>)
    ensures forall out :: out in MatchingRecords(zones, hostnameMap) ==>
      (out.Type == "A" || out.Type == "CNAME") && InMap(hostnameMap, NormalizeHostname(out.Name))
    decreases |zones|
  {
    if zones != [] {
      MatchingRecordsAreTargets(zones[..|zones| - 1], hostnameMap);
      ZoneMatchesAreTargets(zones[|zones| - 1].Records, zones[|zones| - 1].Domain, hostnameMap);
    }
  }

  lemma {:induction false} ZoneMatchesAreTargets(records: seq<DNSRecord>, domain: string, hostnameMap: map<string, bool>)
    ensures forall out :: out in ZoneMatches(records, domain, hostnameMap) ==>
      (out.Type == "A" || out.Type == "CNAME") && InMap(hostnameMap, NormalizeHostname(out.Name))
    decreases |records|
  {
    if records != [] {
      ZoneMatchesAreTargets(records[..|records| - 1], domain, hostnameMap);
    }
  }

  /** Splitting a zone's records splits its matches the same way. */
  lemma {:induction false} ZoneMatchesAppend(a: seq<DNSRecord>, b: seq<DNSRecord>, domain: string, hostnameMap: map<string, bool>)
    ensures ZoneMatches(a + b, domain, hostnameMap) == ZoneMatches(a, domain, hostnameMap) + ZoneMatches(b, domain, hostnameMap)
    decreases |b|
  {
    if b == [] {
      assert a + b == a;
    } else {
      var n := |b| - 1;
      calc {
        ZoneMatches(a + b, domain, hostnameMap);
      == { assert (a + b)[..|a + b| - 1] == a + b[..n]; assert (a + b)[|a + b| - 1] == b[n]; }
        ZoneMatches(a + b[..n], domain, hostnameMap) + RecordMatch(b[n], domain, hostnameMap);
      == { ZoneMatchesAppend(a, b[..n], domain, hostnameMap); }
        ZoneMatches(a, domain, hostnameMap) + ZoneMatches(b[..n], domain, hostnameMap) + RecordMatch(b[n], domain, hostnameMap);
      }
    }
  }

  /** Every output of a record of the zone is among the zone's matches. */
  lemma ZoneMatchesHas(records: seq<DNSRecord>, domain: string, hostnameMap: map<string, bool>, i: nat)
    requires i < |records|
    ensures forall out :: out in RecordMatch(records[i], domain, hostnameMap) ==> out in ZoneMatches(records, domain, hostnameMap)
  {
    assert records == records[..i] + [records[i]] + records[i + 1..];
    ZoneMatchesAppend(records[..i] + [records[i]], records[i + 1..], domain, hostnameMap);
    ZoneMatchesAppend(records[..i], [records[i]], domain, hostnameMap);
    assert ZoneMatches([records[i]], domain, hostnameMap) == RecordMatch(records[i], domain, hostnameMap) by {
      assert [records[i]][..0] == [];
    }
  }

  /** Every match of the zone is the output of one of its records. */
  lemma {:induction false} ZoneMatchesSound(records: seq<DNSRecord>, domain: string, hostnameMap: map<string, bool>)
    ensures forall out :: out in ZoneMatches(records, domain, hostnameMap) ==>
      exists i :: 0 <= i < |records| && out in RecordMatch(records[i], domain, hostnameMap)
    decreases |records|
  {
    if records != [] {
      var n := |records| - 1;
      var prefix := records[..n];
      ZoneMatchesSound(prefix, domain, hostnameMap);
      forall out | out in ZoneMatches(prefix, domain, hostnameMap)
        ensures exists i :: 0 <= i < |records| && out in RecordMatch(records[i], domain, hostnameMap)
      {
        var i :| 0 <= i < n && out in RecordMatch(prefix[i], domain, hostnameMap);
        assert prefix[i] == records[i];
      }
    }
  }

  /** Every match of a zone is among the matches of all zones. */
  lemma {:induction false} MatchingRecordsHas(zones: seq<DNSZone>, hostnameMap: map<string, bool>, z: nat)
    requires z < |zones|
    ensures forall out :: out in ZoneMatches(zones[z].Records, zones[z].Domain, hostnameMap) ==> out in MatchingRecords(zones, hostnameMap)
    decreases |zones|
  {
    var n := |zones| - 1;
    var prefix := zones[..n];
    assert MatchingRecords(zones, hostnameMap) ==
           MatchingRecords(prefix, hostnameMap) + ZoneMatches(zones[n].Records, zones[n].Domain, hostnameMap);
    if z < n {
      assert prefix[z] == zones[z];
      MatchingRecordsHas(prefix, hostnameMap, z);
    }
  }

  /** Every match of all zones is a match of one of them. */
  lemma {:induction false} MatchingRecordsSound(zones: seq<DNSZone>, hostnameMap: map<string, bool>)
    ensures forall out :: out in MatchingRecords(zones, hostnameMap) ==>
      exists z :: 0 <= z < |zones| && out in ZoneMatches(zones[z].Records, zones[z].Domain, hostnameMap)
    decreases |zones|
  {
    if zones != [] {
      var n := |zones| - 1;
      var prefix := zones[..n];
      MatchingRecordsSound(prefix, hostnameMap);
      forall out | out in MatchingRecords(prefix, hostnameMap)
        ensures exists z :: 0 <= z < |zones| && out in ZoneMatches(zones[z].Records, zones[z].Domain, hostnameMap)
      {
        var z :| 0 <= z < n && out in ZoneMatches(prefix[z].Records, prefix[z].Domain, hostnameMap);
        assert prefix[z] == zones[z];
      }
    }
  }

  /** Every output of every record of every zone is among the matches. */
  lemma MatchingRecordsHasRecord(zones: seq<DNSZone>, hostnameMap: map<string, bool>, z: nat, i: nat)
    requires z < |zones| && i < |zones[z].Records|
    ensures forall out :: out in RecordMatch(zones[z].Records[i], zones[z].Domain, hostnameMap) ==> out in MatchingRecords(zones, hostnameMap)
  {
    ZoneMatchesHas(zones[z].Records, zones[z].Domain, hostnameMap, i);
    MatchingRecordsHas(zones, hostnameMap, z);
  }

  /** The inner loop over the names of one record; stops at the first match. */
  method MatchRecord(record: DNSRecord, domain: string, hostnameMap: map<string, bool>) returns (matched: seq<DNSRecordFormatted>)
    ensures matched == RecordMatch(record, domain, hostnameMap)
  {
    matched := [];
    if !IsTargetRecordType(record.Type) {
      return;
    }
    var recordNames := [record.Name];
    if record.Name != domain && !Contains(record.Name, ".") {
      var fullName := record.Name + "." + domain;
      recordNames := recordNames + [fullName];
    }
    assert recordNames == CandidateNames(record, domain);
    for i := 0 to |recordNames|
      invariant FirstMatchingName(recordNames[i..], hostnameMap) == FirstMatchingName(recordNames, hostnameMap)
    {
      var normalizedRecordName := NormalizeHostname(recordNames[i]);
      if InMap(hostnameMap, normalizedRecordName) {
        TargetTypeNameFormats(record.Type);
        matched := [DNSRecordFormatted(recordNames[i], FormatDNSRecordType(record.Type), record.Value, record.TTL)];
        return;
      }
      assert recordNames[i..][1..] == recordNames[i + 1..];
    }
  }

  /** The record loop of filterMatchingDNSRecords for one zone. */
  method MatchZone(zone: DNSZone, hostnameMap: map<string, bool>) returns (matched: seq<DNSRecordFormatted>)
    ensures matched == ZoneMatches(zone.Records, zone.Domain, hostnameMap)
  {
    matched := [];
    for r := 0 to |zone.Records|
      invariant matched == ZoneMatches(zone.Records[..r], zone.Domain, hostnameMap)
    {
      assert zone.Records[..r + 1][..r] == zone.Records[..r];
      var recordMatch := MatchRecord(zone.Records[r], zone.Domain, hostnameMap);
      matched := matched + recordMatch;
    }
    assert zone.Records[..|zone.Records|] == zone.Records;
  }

  /** filterMatchingDNSRecords: all zones, all records, at most one output per record. */
  method FilterMatchingDNSRecords(dnsZones: seq<DNSZone>, hostnameMap: map<string, bool>) returns (matchingRecords: seq<DNSRecordFormatted>)
    ensures matchingRecords == MatchingRecords(dnsZones, hostnameMap)
  {
    matchingRecords := [];
    for z := 0 to |dnsZones|
      invariant matchingRecords == MatchingRecords(dnsZones[..z], hostnameMap)
    {
      assert dnsZones[..z + 1][..z] == dnsZones[..z];
      var zoneMatches := MatchZone(dnsZones[z], hostnameMap);
      matchingRecords := matchingRecords + zoneMatches;
    }
    assert dnsZones[..|dnsZones|] == dnsZones;
  }

  // ---------------------------------------------------------------------
  // Validation
  // ---------------------------------------------------------------------

  /** The first match whose normalised name is `key`. */
  function FirstRecordWithKey(matching: seq<DNSRecordFormatted>, key: string): (r: Option<DNSRecordFormatted>)
    ensures r.Some? ==> exists i :: 0 <= i < |matching| && matching[i] == r.value && NormalizeHostname(r.value.Name) == key &&
                          forall j :: 0 <= j < i ==> NormalizeHostname(matching[j].Name) != key
    ensures r.None? <==> forall rec :: rec in matching ==> NormalizeHostname(rec.Name) != key
    decreases |matching|
  {
    if matching == [] then None
    else if NormalizeHostname(matching[0].Name) == key then Some(matching[0])
    else
      var rest := FirstRecordWithKey(matching[1..], key);
      if rest.Some? then
        ghost var i :| 0 <= i < |matching[1..]| && matching[1..][i] == rest.value && NormalizeHostname(rest.value.Name) == key &&
                       forall j :: 0 <= j < i ==> NormalizeHostname(matching[1..][j].Name) != key;
        assert matching[i + 1] == rest.value;
        assert forall j :: 1 <= j < i + 1 ==> matching[j] == matching[1..][j - 1];
        rest
      else
        assert forall rec :: rec in matching ==> rec == matching[0] || rec in matching[1..];
        rest
  }

  /** The first match whose name equals the hostname up to case. */
  function FirstRecordFor(matching: seq<DNSRecordFormatted>, hostname: string): (r: Option<DNSRecordFormatted>)
    ensures r.Some? ==> r.value in matching && NormalizeHostname(r.value.Name) == NormalizeHostname(hostname)
    ensures r.Some? ==> exists i :: 0 <= i < |matching| && matching[i] == r.value &&
                          forall j :: 0 <= j < i ==> NormalizeHostname(matching[j].Name) != NormalizeHostname(hostname)
    ensures r.None? <==> forall rec :: rec in matching ==> NormalizeHostname(rec.Name) != NormalizeHostname(hostname)
  {
    FirstRecordWithKey(matching, NormalizeHostname(hostname))
  }

  function ValidationFor(hostname: string, matching: seq<DNSRecordFormatted>): (r: DNSValidationResult)
    ensures r.Hostname == hostname
    ensures r.HasRecord <==> exists rec :: rec in matching && NormalizeHostname(rec.Name) == NormalizeHostname(hostname)
  {
    match FirstRecordFor(matching, hostname)
    case None => DNSValidationResult(hostname, false, "", "")
    case Some(rec) => DNSValidationResult(hostname, true, rec.Type, rec.Value)
  }

  /**
   * checkDNSRecordsForHostnames: one result per hostname, in order. When the
   * zones cannot be fetched every hostname is reported without a record.
   */
  ghost function Validations(dnsZones: Result<seq<DNSZone>, string>, hostnames: seq<Bunny.Hostname>): (results: seq<DNSValidationResult>)
    ensures |results| == |hostnames|
    ensures forall i :: 0 <= i < |hostnames| ==> results[i].Hostname == hostnames[i].Value
    ensures dnsZones.Failure? ==> forall i :: 0 <= i < |hostnames| ==> !results[i].HasRecord
    ensures dnsZones.Success? ==>
      var matching := MatchingRecords(dnsZones.value, MapOf(HostnameSet(hostnames)));
      forall i :: 0 <= i < |hostnames| ==>
        (results[i].HasRecord <==> exists rec :: rec in matching && NormalizeHostname(rec.Name) == NormalizeHostname(hostnames[i].Value))
  {
    if dnsZones.Failure? then seq(|hostnames|, i requires 0 <= i < |hostnames| => DNSValidationResult(hostnames[i].Value, false, "", ""))
    else
      var matching := MatchingRecords(dnsZones.value, MapOf(HostnameSet(hostnames)));
      seq(|hostnames|, i requires 0 <= i < |hostnames| => ValidationFor(hostnames[i].Value, matching))
  }

  method CheckDNSRecordsForHostnames(dnsZones: Result<seq<DNSZone>, string>, hostnames: seq<Bunny.Hostname>)
    returns (results: seq<DNSValidationResult>)
    ensures results == Validations(dnsZones, hostnames)
  {
    var arr := new DNSValidationResult[|hostnames|](i requires 0 <= i < |hostnames| => DNSValidationResult(hostnames[i].Value, false, "", ""));
    if dnsZones.Failure? {
      return arr[..];
    }
    var hostnameMap := CreateHostnameMap(hostnames);
    assert hostnameMap == MapOf(HostnameSet(hostnames));
    var matchingRecords := FilterMatchingDNSRecords(dnsZones.value, hostnameMap);
    for i := 0 to |hostnames|
      invariant forall j :: 0 <= j < i ==> arr[j] == ValidationFor(hostnames[j].Value, matchingRecords)
    {
      var result := ValidateHostname(hostnames[i], matchingRecords);
      ghost var before := arr[..];
      arr[i] := result;
      assert arr[..] == before[i := result];
    }
    ghost var expected := seq(|hostnames|, j requires 0 <= j < |hostnames| => ValidationFor(hostnames[j].Value, matchingRecords));
    assert Validations(dnsZones, hostnames) == expected;
    assert arr[..] == expected;
    return arr[..];
  }

  /** The body of the result loop: the first match for the hostname, if any. */
  method ValidateHostname(hostname: Bunny.Hostname, matchingRecords: seq<DNSRecordFormatted>) returns (result: DNSValidationResult)
    ensures result == ValidationFor(hostname.Value, matchingRecords)
  {
    result := DNSValidationResult(hostname.Value, false, "", "");
    var normalizedHostname := NormalizeHostname(hostname.Value);
    for r := 0 to |matchingRecords|
      invariant FirstRecordFor(matchingRecords[r..], hostname.Value) == FirstRecordFor(matchingRecords, hostname.Value)
      invariant result == DNSValidationResult(hostname.Value, false, "", "")
    {
      if NormalizeHostname(matchingRecords[r].Name) == normalizedHostname {
        result := DNSValidationResult(hostname.Value, true, matchingRecords[r].Type, matchingRecords[r].Value);
        return;
      }
      assert matchingRecords[r..][1..] == matchingRecords[r + 1..];
    }
  }

  /**
   * A hostname is validated exactly when some record of some zone is
   * matched under a name equal to the hostname up to case.
   */
  lemma ValidationsExactly(zones: seq<DNSZone>, hostnames: seq<Bunny.Hostname>, h: nat)
    requires h < |hostnames|
    ensures var m := MapOf(HostnameSet(hostnames));
      Validations(Success(zones), hostnames)[h].HasRecord <==>
      exists z, i :: 0 <= z < |zones| && 0 <= i < |zones[z].Records| &&
        exists out :: out in RecordMatch(zones[z].Records[i], zones[z].Domain, m) &&
          NormalizeHostname(out.Name) == NormalizeHostname(hostnames[h].Value)
  {
    var m := MapOf(HostnameSet(hostnames));
    MatchingRecordsSound(zones, m);
    forall z: nat, i: nat | z < |zones| && i < |zones[z].Records| {
      MatchingRecordsHasRecord(zones, m, z, i);
    }
    forall z | 0 <= z < |zones| {
      ZoneMatchesSound(zones[z].Records, zones[z].Domain, m);
    }
  }

  /** An A or CNAME record named like a hostname (up to case) always validates it. */
  lemma OwnRecordValidates(zones: seq<DNSZone>, hostnames: seq<Bunny.Hostname>, h: nat, z: nat, i: nat)
    requires h < |hostnames| && z < |zones| && i < |zones[z].Records|
    requires IsTargetRecordType(zones[z].Records[i].Type)
    requires NormalizeHostname(zones[z].Records[i].Name) == NormalizeHostname(hostnames[h].Value)
    ensures Validations(Success(zones), hostnames)[h].HasRecord
  {
    var m := MapOf(HostnameSet(hostnames));
    var record := zones[z].Records[i];
    assert InMap(m, NormalizeHostname(record.Name));
    assert record.Name in CandidateNames(record, zones[z].Domain);
    var out := RecordMatch(record, zones[z].Domain, m)[0];
    ValidationsExactly(zones, hostnames, h);
    assert out in RecordMatch(zones[z].Records[i], zones[z].Domain, m);
  }

  /** The map with every key of `keys` set to true. */
  function MapOf(keys: set<string>): (m: map<string, bool>)
    ensures m.Keys == keys
    ensures forall k :: k in keys ==> InMap(m, k)
  {
    map k | k in keys :: true
  }

  // ---------------------------------------------------------------------
  // checkDNSRecordsStructured
  // ---------------------------------------------------------------------

  const BunnyManagedSuffix: string := ".b-cdn.net"

  /** Where one validation goes: skipped and fine, missing (an issue), or fine. */
  function Verdict(v: DNSValidationResult): (r: (bool, EdgeRules.CheckIssue))
    ensures !r.0 <==> !HasSuffix(v.Hostname, BunnyManagedSuffix) && !v.HasRecord
    ensures HasSuffix(v.Hostname, BunnyManagedSuffix) ==> r.1.Type == "dns_skip"
    ensures r.0 ==> r.1.Severity == EdgeRules.Info
    ensures !r.0 ==> r.1.Severity == EdgeRules.Error && r.1.Type == "dns_missing_record"
  {
    if HasSuffix(v.Hostname, BunnyManagedSuffix) then
      (true, EdgeRules.CheckIssue("dns_skip", EdgeRules.Info, "SKIP " + v.Hostname + " (Bunny-managed)", None,
                                  EdgeRules.HostnameDetail(v.Hostname)))
    else if !v.HasRecord then
      (false, EdgeRules.CheckIssue("dns_missing_record", EdgeRules.Error, "MISSING " + v.Hostname + " - No DNS record found", None,
                                   EdgeRules.HostnameDetail(v.Hostname)))
    else
      (true, EdgeRules.CheckIssue("dns_ok", EdgeRules.Info,
                                  "OK " + v.Hostname + " (" + v.RecordType + " -> " + v.RecordValue + ")", None,
                                  EdgeRules.RecordDetail(v.Hostname, v.RecordType, v.RecordValue)))
  }

  function Partition(validations: seq<DNSValidationResult>): (r: CheckResult)
    ensures |r.Issues| + |r.Successful| == |validations|
    decreases |validations|
  {
    if validations == [] then CheckResult([], [])
    else
      var rest := Partition(validations[..|validations| - 1]);
      var (ok, issue) := Verdict(validations[|validations| - 1]);
      if ok then CheckResult(rest.Issues, rest.Successful + [issue]) else CheckResult(rest.Issues + [issue], rest.Successful)
  }

  /** Number of validations that are neither Bunny-managed nor backed by a record. */
  function MissingCount(validations: seq<DNSValidationResult>): nat
    decreases |validations|
  {
    if validations == [] then 0
    else MissingCount(validations[..|validations| - 1]) +
         (var v := validations[|validations| - 1]; if !HasSuffix(v.Hostname, BunnyManagedSuffix) && !v.HasRecord then 1 else 0)
  }

  /** The issues are exactly the missing records; everything else is successful. */
  lemma {:induction false} PartitionIssues(validations: seq<DNSValidationResult>)
    ensures |Partition(validations).Issues| == MissingCount(validations)
    ensures forall issue :: issue in Partition(validations).Issues ==> issue.Type == "dns_missing_record"
    ensures forall issue :: issue in Partition(validations).Successful ==> issue.Severity == EdgeRules.Info
    decreases |validations|
  {
    if validations != [] {
      PartitionIssues(validations[..|validations| - 1]);
    }
  }

  /** checkDNSRecordsStructured: validate every hostname, then sort each result into issues or successes. */
  method CheckDNSRecordsStructured(dnsZones: Result<seq<DNSZone>, string>, hostnames: seq<Bunny.Hostname>) returns (result: CheckResult)
    ensures result == Partition(Validations(dnsZones, hostnames))
    ensures |result.Issues| + |result.Successful| == |hostnames|
  {
    var validationResults := CheckDNSRecordsForHostnames(dnsZones, hostnames);
    result := CheckResult([], []);
    for i := 0 to |validationResults|
      invariant result == Partition(validationResults[..i])
    {
      assert validationResults[..i + 1][..i] == validationResults[..i];
      var validation := validationResults[i];
      if HasSuffix(validation.Hostname, BunnyManagedSuffix) {
        result := result.(Successful := result.Successful + [EdgeRules.CheckIssue("dns_skip", EdgeRules.Info,
          "SKIP " + validation.Hostname + " (Bunny-managed)", None, EdgeRules.HostnameDetail(validation.Hostname))]);
        continue;
      }
      if !validation.HasRecord {
        result := result.(Issues := result.Issues + [EdgeRules.CheckIssue("dns_missing_record", EdgeRules.Error,
          "MISSING " + validation.Hostname + " - No DNS record found", None, EdgeRules.HostnameDetail(validation.Hostname))]);
      } else {
        result := result.(Successful := result.Successful + [EdgeRules.CheckIssue("dns_ok", EdgeRules.Info,
          "OK " + validation.Hostname + " (" + validation.RecordType + " -> " + validation.RecordValue + ")", None,
          EdgeRules.RecordDetail(validation.Hostname, validation.RecordType, validation.RecordValue))]);
      }
    }
    assert validationResults[..|validationResults|] == validationResults;
  }
}
