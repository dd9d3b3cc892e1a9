/** A cached snapshot as the cache validator sees it once parsed, and the
    file name it is stored under (infoset/test/test_jm_validate.py).

    The validator itself (infoset/cache/validate.py) is not part of this
    model: its verdict is reconstructed from what the tests assert about
    it.  A snapshot is valid when it is a mapping that holds `agent`,
    `hostname`, `timestamp` and `uid`, the timestamp being an integer.
 */
module CacheEntry {
  import opened Failures
  import Text

  /** A parsed JSON / Python literal value. */
  datatype Json =
    | JNull
    | JInt(i: int)
    | JReal(r: real)
    | JStr(s: string)
    | JList(items: seq<Json>)
    | JObj(fields: map<string, Json>)

  /** The keys every cached snapshot must carry. */
  const REQUIRED: set<string> := {"agent", "hostname", "timestamp", "uid"}

  /** The verdict of `ValidateCache(...).valid()`. */
  predicate Valid(entry: Json) {
    && entry.JObj?
    && "agent" in entry.fields
    && "hostname" in entry.fields
    && "uid" in entry.fields
    && "timestamp" in entry.fields
    && entry.fields["timestamp"].JInt?
  }

  /** Dropping any required key makes a snapshot invalid. */
  lemma MissingKeyInvalid(fields: map<string, Json>, key: string)
    requires key in REQUIRED
    ensures !Valid(JObj(fields - {key}))
  {
  }

  /** A timestamp that is not an integer makes a snapshot invalid. */
  lemma TimestampMustBeInt(fields: map<string, Json>, timestamp: Json)
    requires !timestamp.JInt?
    ensures !Valid(JObj(fields["timestamp" := timestamp]))
  {
  }

  /** Keys other than the four required ones do not change the verdict. */
  lemma OtherKeysIgnored(fields: map<string, Json>, key: string, value: Json)
    requires key !in REQUIRED
    ensures Valid(JObj(fields[key := value])) == Valid(JObj(fields))
  {
  }

  // ---------------------------------------------------------------------
  // The fixtures
  // ---------------------------------------------------------------------

  const HOSTNAME := "192.168.1.3"
  const TIMESTAMP := 1468857600
  const UID := "e92af7f044246b7976c1f3274b8f6228ea999bafc92b016597fb56ec51e57668"

  /** One `[index, value, source]` record. */
  function Point(index: int, value: int, source: string): Json {
    JList([JInt(index), JInt(value), JStr(source)])
  }

  /** A counter32 chart with its data records. */
  function Series(points: seq<Json>): Json {
    JObj(map["base_type" := JStr("counter32"), "data" := JList(points), "description" := JNull])
  }

  /** The `chartable` part of the fixtures; the snapshot without `agent`
      names the fourth outbound interface `FastEthernet0/2`, the others
      `FastEthernet0/23`. */
  function Chartable(fourthOut: string): Json {
    JObj(map[
      "_ifInOctets" := Series([
        Point(0, 19729125944, "FastEthernet0/1"), Point(1, 30281712128, "FastEthernet0/2"),
        Point(2, 3602957760, "FastEthernet0/21"), Point(3, 19677028080, "FastEthernet0/23"),
        Point(4, 18527568600, "FastEthernet0/26"), Point(5, 13548541568, "FastEthernet0/3"),
        Point(6, 1633419768, "FastEthernet0/35"), Point(7, 0, "Null0"),
        Point(8, 1657831376, "Vlan1")]),
      "_ifOutOctets" := Series([
        Point(0, 31348133488, "FastEthernet0/1"), Point(1, 5327628464, "FastEthernet0/2"),
        Point(2, 10968459144, "FastEthernet0/21"), Point(3, 13275253360, fourthOut),
        Point(4, 24709868928, "FastEthernet0/26"), Point(5, 7793695064, "FastEthernet0/3"),
        Point(6, 3581965608, "FastEthernet0/35"), Point(7, 0, "Null0"),
        Point(8, 1682357240, "Vlan1")])])
  }

  function GoodFields(): map<string, Json> {
    map[
      "agent" := JStr("interfaces"),
      "chartable" := Chartable("FastEthernet0/23"),
      "hostname" := JStr(HOSTNAME),
      "timestamp" := JInt(TIMESTAMP),
      "uid" := JStr(UID)]
  }

  function ConfigGood(): Json {
    JObj(GoodFields())
  }

  function ConfigNoAgent(): Json {
    JObj(map[
      "chartable" := Chartable("FastEthernet0/2"),
      "hostname" := JStr(HOSTNAME),
      "timestamp" := JInt(TIMESTAMP),
      "uid" := JStr(UID)])
  }

  function ConfigNoHostname(): Json {
    JObj(GoodFields() - {"hostname"})
  }

  function ConfigNoTimestamp(): Json {
    JObj(GoodFields() - {"timestamp"})
  }

  function ConfigNotIntTimestamp(): Json {
    JObj(GoodFields()["timestamp" := JStr("jfknlagerklw")])
  }

  function ConfigNoUid(): Json {
    JObj(GoodFields() - {"uid"})
  }

  /** The well-formed snapshot is valid. */
  lemma GoodIsValid()
    ensures Valid(ConfigGood())
  {
  }

  /** Each of the ill-formed snapshots is invalid. */
  lemma NoAgentIsInvalid()
    ensures !Valid(ConfigNoAgent())
  {
  }

  lemma NoHostnameIsInvalid()
    ensures !Valid(ConfigNoHostname())
  {
    MissingKeyInvalid(GoodFields(), "hostname");
  }

  lemma NoTimestampIsInvalid()
    ensures !Valid(ConfigNoTimestamp())
  {
    MissingKeyInvalid(GoodFields(), "timestamp");
  }

  lemma NotIntTimestampIsInvalid()
    ensures !Valid(ConfigNotIntTimestamp())
  {
    TimestampMustBeInt(GoodFields(), JStr("jfknlagerklw"));
  }

  lemma NoUidIsInvalid()
    ensures !Valid(ConfigNoUid())
  {
    MissingKeyInvalid(GoodFields(), "uid");
  }

  // ---------------------------------------------------------------------
  // The file name
  // ---------------------------------------------------------------------

  /** `'%s' % value` for the two kinds of value the file names are built
      from. */
  function Render(value: Json): string
    requires value.JInt? || value.JStr?
  {
    if value.JInt? then Text.Decimal(value.i) else value.s
  }

  /** `_filename(timestamp, uid)`. */
  function FileName(timestamp: Json, uid: Json): string
    requires timestamp.JInt? || timestamp.JStr?
    requires uid.JInt? || uid.JStr?
  {
    Render(timestamp) + "_" + Render(uid) + ".json"
  }

  /** The position of the first `c` in `s`. */
  function FirstIndex(s: string, c: char): (r: Option<nat>)
    ensures r.Some? ==> r.value < |s| && s[r.value] == c && c !in s[..r.value]
    ensures r.None? ==> c !in s
  {
    if s == [] then None
    else if s[0] == c then Some(0)
    else
      match FirstIndex(s[1..], c)
      case None => None
      case Some(i) =>
        assert s[..i + 1] == [s[0]] + s[1..][..i];
        Some(i + 1)
  }

  /** Reads a cache file name back into its integer timestamp and its uid:
      the timestamp runs up to the first underscore, the uid from there to
      the `.json` suffix. */
  function ParseFileName(name: string): Option<(int, string)> {
    match FirstIndex(name, '_')
    case None => None
    case Some(i) =>
      var head, tail := name[..i], name[i + 1..];
      if |head| > 0 && Text.DecimalText(head) && |tail| >= 5 && tail[|tail| - 5..] == ".json"
      then Some((Text.ParseDecimal(head), tail[..|tail| - 5]))
      else None
  }

  /** The first occurrence of a character absent from a prefix is right
      after that prefix. */
  lemma {:induction false} FirstIndexAfter(a: string, c: char, b: string)
    requires c !in a
    ensures FirstIndex(a + [c] + b, c) == Some(|a|)
  {
    if a != [] {
      FirstIndexAfter(a[1..], c, b);
      assert (a + [c] + b)[1..] == a[1..] + [c] + b;
    }
  }

  /** The name of a snapshot with an integer timestamp gives back its
      timestamp and its uid, whatever characters the uid holds. */
  lemma FileNameRoundTrip(timestamp: int, uid: string)
    ensures ParseFileName(FileName(JInt(timestamp), JStr(uid))) == Some((timestamp, uid))
  {
    var digits := Text.Decimal(timestamp);
    var name := FileName(JInt(timestamp), JStr(uid));
    forall k | 0 <= k < |digits|
      ensures digits[k] != '_'
    {
    }
    assert name == digits + ['_'] + (uid + ".json");
    FirstIndexAfter(digits, '_', uid + ".json");
    assert name[..|digits|] == digits;
    assert name[|digits| + 1..] == uid + ".json";
    Text.DecimalRoundTrip(timestamp);
  }

  /** Two snapshots with integer timestamps share a file name only when
      they share the timestamp and the uid. */
  lemma FileNameUnique(t1: int, u1: string, t2: int, u2: string)
    requires FileName(JInt(t1), JStr(u1)) == FileName(JInt(t2), JStr(u2))
    ensures t1 == t2 && u1 == u2
  {
    FileNameRoundTrip(t1, u1);
    FileNameRoundTrip(t2, u2);
  }

  /** The name made up for the snapshots without a timestamp or without a
      uid, from the string '1468857600', is the well-formed snapshot's name. */
  lemma MadeUpNameIsGoodName()
    ensures FileName(JStr("1468857600"), JStr(UID)) == FileName(JInt(TIMESTAMP), JStr(UID))
  {
    assert Text.Decimal(TIMESTAMP) == "1468857600";
  }
}
