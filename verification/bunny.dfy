/**
 * Model of cmd/hop/bunny.go: timestamp decoding, the strict field check of
 * API responses, zone selection by name and the small formatters. The HTTP
 * requests themselves are not modelled; their decoded answers are inputs.
 */
module Bunny {
  import opened Wrappers
  import opened Text

  /**
   * A decoded point in time. `ZeroTime` is Go's `time.Time{}`; `At` holds
   * whatever value the (external) time parser produced, kept abstract.
   */
  datatype Instant = ZeroTime | At(ticks: int)

  /** A time parser for one layout: the instant, or the parser's error. */
  type TimeParser = string -> Result<Instant, string>

  // ---------------------------------------------------------------------
  // BunnyTime
  // ---------------------------------------------------------------------

  /**
   * What `UnmarshalJSON` decodes `data` to: surrounding quotes are stripped;
   * "null" and "" are the zero time; otherwise the Bunny layout
   * ("2006-01-02T15:04:05.999", no zone) is tried first and RFC 3339
   * (section 5.6 of RFC 3339) only when that fails.
   */
  function DecodeTime(data: string, parseBunny: TimeParser, parseRFC3339: TimeParser): (r: Result<Instant, string>)
    ensures var s := TrimQuotes(data);
      && (s == "null" || s == "" ==> r == Success(ZeroTime))
      && (s != "null" && s != "" ==>
            && (parseBunny(s).Success? ==> r == parseBunny(s))
            && (parseBunny(s).Failure? ==> r == parseRFC3339(s)))
    ensures r.Failure? ==> parseBunny(TrimQuotes(data)).Failure? && parseRFC3339(TrimQuotes(data)).Failure?
  {
    var s := TrimQuotes(data);
    if s == "null" || s == "" then Success(ZeroTime)
    else
      match parseBunny(s)
      case Success(t) => Success(t)
      case Failure(_) => parseRFC3339(s)
  }

  /** Quoting does not matter: a value decodes like its unquoted text. */
  lemma DecodeTimeIgnoresQuotes(data: string, parseBunny: TimeParser, parseRFC3339: TimeParser)
    ensures DecodeTime("\"" + data + "\"", parseBunny, parseRFC3339) == DecodeTime(data, parseBunny, parseRFC3339)
  {
    var q := "\"" + data + "\"";
    assert q[1..] == data + "\"";
    TrimQuotesTrailing(data);
  }

  /** One more closing quote is stripped like the others. */
  lemma {:induction false} TrimQuotesTrailing(x: string)
    ensures TrimQuotes(x + "\"") == TrimQuotes(x)
    decreases |x|
  {
    var q := x + "\"";
    if x == [] {
      assert q[1..] == [];
    } else if x[0] == '"' {
      assert q[1..] == x[1..] + "\"";
      TrimQuotesTrailing(x[1..]);
    } else {
      assert q[..|q| - 1] == x;
    }
  }

  /** A quoted JSON null decodes to the zero time without consulting any parser. */
  lemma QuotedNullIsZeroTime(parseBunny: TimeParser, parseRFC3339: TimeParser)
    ensures DecodeTime("\"null\"", parseBunny, parseRFC3339) == Success(ZeroTime)
    ensures DecodeTime("\"\"", parseBunny, parseRFC3339) == Success(ZeroTime)
  {
    DecodeTimeIgnoresQuotes("null", parseBunny, parseRFC3339);
    assert "\"" + "null" + "\"" == "\"null\"";
    DecodeTimeIgnoresQuotes("", parseBunny, parseRFC3339);
    assert "\"" + "" + "\"" == "\"\"";
  }

  /** BunnyTime: the wrapped time value, replaced by `UnmarshalJSON`. */
  class BunnyTime {
    var Time: Instant

    constructor ()
      ensures Time == ZeroTime
    {
      Time := ZeroTime;
    }

    /** Decodes `data` into `Time`; on error `Time` is left as it was. */
    method UnmarshalJSON(data: string, parseBunny: TimeParser, parseRFC3339: TimeParser) returns (err: Option<string>)
      modifies this
      ensures DecodeTime(data, parseBunny, parseRFC3339).Success? ==>
        err == None && Time == DecodeTime(data, parseBunny, parseRFC3339).value
      ensures DecodeTime(data, parseBunny, parseRFC3339).Failure? ==>
        err == Some(DecodeTime(data, parseBunny, parseRFC3339).error) && Time == old(Time)
    {
      var s := TrimQuotes(data);
      if s == "null" || s == "" {
        Time := ZeroTime;
        return None;
      }
      var t := parseBunny(s);
      if t.Failure? {
        t := parseRFC3339(s);
        if t.Failure? {
          return Some(t.error);
        }
      }
      Time := t.value;
      return None;
    }
  }

  // ---------------------------------------------------------------------
  // API records
  // ---------------------------------------------------------------------

  datatype PullZone = PullZone(Id: int, Name: string)
  datatype Hostname = Hostname(Id: int, Value: string)
  datatype StorageZone = StorageZone(Id: int, Name: string, Password: string)

  // ---------------------------------------------------------------------
  // Strict decoding
  // ---------------------------------------------------------------------

  /** The field names a struct expects: the name part of every tag that is neither "" nor "-". */
  function FieldNames(tags: seq<string>): (names: seq<string>)
    ensures |names| <= |tags|
    ensures forall n :: n in names ==> ',' !in n
    decreases |tags|
  {
    if tags == [] then []
    else FieldNames(tags[..|tags| - 1]) +
         (var tag := tags[|tags| - 1]; if tag != "" && tag != "-" then [BeforeComma(tag)] else [])
  }

  /** getJSONFieldNames: the struct's `json` tags, in field order. */
  method GetJSONFieldNames(tags: seq<string>) returns (fields: seq<string>)
    ensures fields == FieldNames(tags)
  {
    fields := [];
    for i := 0 to |tags|
      invariant fields == FieldNames(tags[..i])
    {
      assert tags[..i + 1][..i] == tags[..i];
      var jsonTag := tags[i];
      if jsonTag != "" && jsonTag != "-" {
        var name := BeforeComma(jsonTag);
        fields := fields + [name];
      }
    }
    assert tags[..|tags|] == tags;
  }

  /** A field named by a tag with options is the tag's text before the comma. */
  lemma {:induction false} FieldNamesComeFromTags(tags: seq<string>)
    ensures forall n :: n in FieldNames(tags) ==>
      exists i :: 0 <= i < |tags| && tags[i] != "" && tags[i] != "-" && n == BeforeComma(tags[i])
    decreases |tags|
  {
    if tags != [] {
      FieldNamesComeFromTags(tags[..|tags| - 1]);
    }
  }

  /** Splitting the fields into two runs splits the names the same way. */
  lemma {:induction false} FieldNamesAppend(a: seq<string>, b: seq<string>)
    ensures FieldNames(a + b) == FieldNames(a) + FieldNames(b)
    decreases |b|
  {
    if b == [] {
      assert a + b == a;
    } else {
      var n := |b| - 1;
      assert (a + b)[..|a + b| - 1] == a + b[..n];
      assert (a + b)[|a + b| - 1] == b[n];
      FieldNamesAppend(a, b[..n]);
    }
  }

  /**
   * Every field with a tag other than "" and "-" contributes the text
   * before its first comma, at the position after the names of the fields
   * before it.
   */
  lemma FieldNameAt(tags: seq<string>, i: nat)
    requires i < |tags| && tags[i] != "" && tags[i] != "-"
    ensures var before := |FieldNames(tags[..i])|;
      before < |FieldNames(tags)| && FieldNames(tags)[before] == BeforeComma(tags[i])
  {
    assert tags == tags[..i] + [tags[i]] + tags[i + 1..];
    FieldNamesAppend(tags[..i] + [tags[i]], tags[i + 1..]);
    FieldNamesAppend(tags[..i], [tags[i]]);
    assert FieldNames([tags[i]]) == [BeforeComma(tags[i])] by {
      assert [tags[i]][..0] == [];
    }
  }

  function MissingFieldError(field: string): string
  {
    "struct expects field '" + field + "' but it's not in the API response - remove from struct"
  }

  /** The first of `fields`, in order, that is not among `keys`. */
  function FirstMissing(fields: seq<string>, keys: set<string>): (r: Option<string>)
    ensures r.None? <==> forall f :: f in fields ==> f in keys
    ensures r.Some? ==> exists i :: 0 <= i < |fields| && fields[i] == r.value && r.value !in keys &&
                          forall j :: 0 <= j < i ==> fields[j] in keys
    decreases |fields|
  {
    if fields == [] then None
    else if fields[0] !in keys then Some(fields[0])
    else
      var rest := FirstMissing(fields[1..], keys);
      if rest.Some? then
        ghost var i :| 0 <= i < |fields[1..]| && fields[1..][i] == rest.value && rest.value !in keys &&
                       forall j :: 0 <= j < i ==> fields[1..][j] in keys;
        assert fields[i + 1] == rest.value;
        assert forall j :: 1 <= j < i + 1 ==> fields[j] == fields[1..][j - 1];
        rest
      else rest
  }

  /** What strictUnmarshal returns: the decoder's error, the first missing field, or the typed decode's outcome. */
  function StrictResult(raw: Result<set<string>, string>, tags: seq<string>, decodeErr: Option<string>): Option<string>
  {
    if raw.Failure? then Some(raw.error)
    else
      match FirstMissing(FieldNames(tags), raw.value)
      case None => decodeErr
      case Some(field) => Some(MissingFieldError(field))
  }

  /**
   * strictUnmarshal: `raw` is the set of top-level keys of the response (or
   * the decoder's error), `tags` the target struct's tags and `decodeErr`
   * the outcome of the final ordinary decode. Fails on the first expected
   * field, in struct order, that the response lacks; extra keys are allowed.
   */
  method StrictUnmarshal(raw: Result<set<string>, string>, tags: seq<string>, decodeErr: Option<string>)
    returns (err: Option<string>)
    ensures raw.Failure? ==> err == Some(raw.error)
    ensures raw.Success? ==>
      var fields := FieldNames(tags);
      && ((forall f :: f in fields ==> f in raw.value) ==> err == decodeErr)
      && (forall i :: 0 <= i < |fields| && fields[i] !in raw.value && (forall j :: 0 <= j < i ==> fields[j] in raw.value) ==>
            err == Some(MissingFieldError(fields[i])))
    ensures err == StrictResult(raw, tags, decodeErr)
  {
    if raw.Failure? {
      return Some(raw.error);
    }
    var expectedFields := GetJSONFieldNames(tags);
    for i := 0 to |expectedFields|
      invariant forall j :: 0 <= j < i ==> expectedFields[j] in raw.value
      invariant FirstMissing(expectedFields[i..], raw.value) == FirstMissing(expectedFields, raw.value)
    {
      if expectedFields[i] !in raw.value {
        return Some(MissingFieldError(expectedFields[i]));
      }
      assert expectedFields[i..][1..] == expectedFields[i + 1..];
    }
    return decodeErr;
  }

  /** Keys the struct does not expect never change the outcome of the check. */
  lemma ExtraKeysAllowed(keys: set<string>, extra: set<string>, tags: seq<string>, decodeErr: Option<string>)
    requires forall f :: f in extra ==> f !in FieldNames(tags)
    ensures StrictResult(Success(keys + extra), tags, decodeErr) == StrictResult(Success(keys), tags, decodeErr)
  {
    FirstMissingIgnoresExtra(FieldNames(tags), keys, extra);
  }

  lemma {:induction false} FirstMissingIgnoresExtra(fields: seq<string>, keys: set<string>, extra: set<string>)
    requires forall f :: f in extra ==> f !in fields
    ensures FirstMissing(fields, keys + extra) == FirstMissing(fields, keys)
    decreases |fields|
  {
    if fields != [] {
      FirstMissingIgnoresExtra(fields[1..], keys, extra);
    }
  }

  // ---------------------------------------------------------------------
  // Searching and formatting
  // ---------------------------------------------------------------------

  /** contains: linear search with early return. */
  method Contains(slice: seq<string>, item: string) returns (found: bool)
    ensures found <==> item in slice
  {
    for i := 0 to |slice|
      invariant item !in slice[..i]
    {
      if slice[i] == item {
        return true;
      }
    }
    assert slice[..|slice|] == slice;
    return false;
  }

  /** The first zone in the list whose name case-insensitively equals `name`. */
  method FindPullZoneByName(pullZones: seq<PullZone>, name: string) returns (r: Result<int, string>)
    ensures r.Success? <==> exists i :: 0 <= i < |pullZones| && EqualFold(pullZones[i].Name, name)
    ensures r.Success? ==> exists i :: 0 <= i < |pullZones| && EqualFold(pullZones[i].Name, name) &&
                                       pullZones[i].Id == r.value &&
                                       (forall j :: 0 <= j < i ==> !EqualFold(pullZones[j].Name, name))
    ensures r.Failure? ==> r.error == "pull zone with name '" + name + "' not found"
  {
    for i := 0 to |pullZones|
      invariant forall j :: 0 <= j < i ==> !EqualFold(pullZones[j].Name, name)
    {
      if EqualFold(pullZones[i].Name, name) {
        return Success(pullZones[i].Id);
      }
    }
    return Failure("pull zone with name '" + name + "' not found");
  }

  /** The first storage zone whose name case-insensitively equals the pull zone's name. */
  method FindStorageZoneForPullZone(storageZones: seq<StorageZone>, pullZoneName: string) returns (r: Result<StorageZone, string>)
    ensures r.Success? <==> exists i :: 0 <= i < |storageZones| && EqualFold(storageZones[i].Name, pullZoneName)
    ensures r.Success? ==> exists i :: 0 <= i < |storageZones| && storageZones[i] == r.value &&
                                       EqualFold(r.value.Name, pullZoneName) &&
                                       (forall j :: 0 <= j < i ==> !EqualFold(storageZones[j].Name, pullZoneName))
    ensures r.Failure? ==> r.error == "no storage zone found for pull zone '" + pullZoneName + "'"
  {
    for i := 0 to |storageZones|
      invariant forall j :: 0 <= j < i ==> !EqualFold(storageZones[j].Name, pullZoneName)
    {
      if EqualFold(storageZones[i].Name, pullZoneName) {
        return Success(storageZones[i]);
      }
    }
    return Failure("no storage zone found for pull zone '" + pullZoneName + "'");
  }

  function FormatBoolStatus(enabled: bool): (r: string)
    ensures r == "Enabled" <==> enabled
    ensures r == "Disabled" <==> !enabled
  {
    if enabled then "Enabled" else "Disabled"
  }

  const SSLStatusNames: seq<string> := ["Not configured", "Pending", "Active", "Failed", "Expired"]

  /** The certificate status codes 0 to 4 have names; any other code n reads "Unknown (n)". */
  function FormatSSLCertificateStatus(status: int): (r: string)
    ensures 0 <= status < 5 ==> r == SSLStatusNames[status]
    ensures !(0 <= status < 5) ==> r == "Unknown (" + IntToString(status) + ")"
    ensures HasPrefix(r, "Unknown (") <==> !(0 <= status < 5)
  {
    var r := match status
      case 0 => "Not configured"
      case 1 => "Pending"
      case 2 => "Active"
      case 3 => "Failed"
      case 4 => "Expired"
      case _ => "Unknown (" + IntToString(status) + ")";
    assert 0 <= status < 5 ==> r[0] != 'U';
    r
  }
}
