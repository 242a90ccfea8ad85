/** Names of archived media files: the object id of a media row, or that id followed by an
    `.attempt-*.part` suffix while a download is in progress. */
module MediaNames {
  import opened Text

  predicate IsHexDigit(c: char) {
    '0' <= c <= '9' || 'a' <= c <= 'f' || 'A' <= c <= 'F'
  }

  /** The 8-4-4-4-12 form, in either case. */
  predicate IsUuidText(s: string) {
    |s| == 36 &&
    forall i :: 0 <= i < 36 ==> if i in {8, 13, 18, 23} then s[i] == '-' else IsHexDigit(s[i])
  }

  function Dashed(hex: string): string
    requires |hex| == 32
  {
    hex[..8] + "-" + hex[8..12] + "-" + hex[12..16] + "-" + hex[16..20] + "-" + hex[20..]
  }

  /** The UUID library's parser: the four spellings it accepts, answered in canonical lower case. */
  function ParseUuid(s: string): Option<string> {
    if |s| == 36 then
      if IsUuidText(s) then Some(ToLower(s)) else None
    else if |s| == 45 then
      if ToLower(s[..9]) == "urn:uuid:" && IsUuidText(s[9..]) then Some(ToLower(s[9..])) else None
    else if |s| == 38 then
      if IsUuidText(s[1..37]) then Some(ToLower(s[1..37])) else None
    else if |s| == 32 then
      if forall i :: 0 <= i < 32 ==> IsHexDigit(s[i]) then Some(ToLower(Dashed(s))) else None
    else None
  }

  /** The comparison both the staging loop and the quarantine listing make: the text parses and
      is its own canonical form up to case. */
  predicate IsCanonicalUpToCase(s: string) {
    ParseUuid(s) == Some(ToLower(s))
  }

  lemma CanonicalMeansDashedForm(s: string)
    ensures IsCanonicalUpToCase(s) <==> IsUuidText(s)
  {
    if ParseUuid(s).Some? {
      assert |ParseUuid(s).value| == 36;
    }
  }

  /** The file-name stem staging uses for a media row id, or nothing when the id is unsafe. */
  function ObjectName(rawId: string): Option<string> {
    if IsCanonicalUpToCase(TrimSpace(rawId)) then Some(ToLower(TrimSpace(rawId))) else None
  }

  /** The shell pattern `<id>.attempt-*.part`. */
  predicate IsPartOf(id: string, name: string) {
    '/' !in name && |name| >= |id| + |".attempt-"| + |".part"| &&
    HasPrefix(name, id + ".attempt-") && HasSuffix(name, ".part")
  }

  /** The files staging looks for on behalf of one media row. */
  predicate Owns(rawId: string, name: string) {
    ObjectName(rawId).Some? && (name == ObjectName(rawId).value || IsPartOf(ObjectName(rawId).value, name))
  }

  lemma ObjectNameShape(rawId: string)
    requires ObjectName(rawId).Some?
    ensures IsUuidText(ObjectName(rawId).value)
    ensures forall c :: c in ObjectName(rawId).value ==> c != '.' && c != '/'
  {
    var t := TrimSpace(rawId);
    CanonicalMeansDashedForm(t);
    var id := ToLower(t);
    assert forall i :: 0 <= i < 36 ==> id[i] == LowerChar(t[i]);
    assert forall i :: 0 <= i < 36 ==> id[i] != '.' && id[i] != '/';
  }

  /** A file belongs to at most one object name. */
  lemma OwnerIsUnique(rawA: string, rawB: string, name: string)
    requires Owns(rawA, name) && Owns(rawB, name)
    ensures ObjectName(rawA) == ObjectName(rawB)
  {
    ObjectNameShape(rawA);
    ObjectNameShape(rawB);
    var a, b := ObjectName(rawA).value, ObjectName(rawB).value;
    assert a == name[..36] by {
      if name != a { assert (a + ".attempt-")[..36] == a; }
    }
    assert b == name[..36] by {
      if name != b { assert (b + ".attempt-")[..36] == b; }
    }
  }

  // ----- What the quarantine listing accepts -----

  /** Where filepath.Ext starts, looking back from position i; the length when there is none. */
  function ExtensionStart(name: string, i: nat): (at: nat)
    requires i <= |name|
    ensures at <= |name|
  {
    if i == 0 || name[i - 1] == '/' then |name|
    else if name[i - 1] == '.' then i - 1
    else ExtensionStart(name, i - 1)
  }

  /** Position of the first occurrence of a text, or the length when there is none. */
  function IndexOfText(s: string, text: string): (at: nat)
    ensures at <= |s|
    ensures forall k :: 0 <= k < at ==> !(text <= s[k..])
    ensures at < |s| ==> text <= s[at..]
  {
    if s == [] then 0
    else if text <= s then 0
    else
      var rest := IndexOfText(s[1..], text);
      assert forall k :: 0 < k <= rest ==> s[k..] == s[1..][k - 1..];
      rest + 1
  }

  function SafeNameStem(name: string): string {
    var at := IndexOfText(name, ".attempt-");
    if at < |name| && HasSuffix(name, ".part") then name[..at]
    else name[..ExtensionStart(name, |name|)]
  }

  /** safeFixtureMediaFileName. A directory entry equals its own base name when it has no slash. */
  predicate SafeFileName(name: string) {
    name != [] && '/' !in name && IsCanonicalUpToCase(SafeNameStem(name))
  }

  lemma {:induction false} NoExtension(name: string, i: nat)
    requires i <= |name| && '.' !in name
    ensures ExtensionStart(name, i) == |name|
  {
    if i > 0 {
      assert name[i - 1] in name;
      NoExtension(name, i - 1);
    }
  }

  lemma {:induction false} TextStartsWhereItsFirstCharacterDoes(s: string, text: string, at: nat)
    requires text != [] && at <= |s|
    requires forall k :: 0 <= k < at ==> s[k] != text[0]
    requires at == |s| || text <= s[at..]
    ensures IndexOfText(s, text) == at
  {
    if at > 0 {
      assert s[0] != text[0];
      assert s[1..][at - 1..] == s[at..];
      TextStartsWhereItsFirstCharacterDoes(s[1..], text, at - 1);
    }
  }

  /** Every name staging can move into the quarantine is accepted when the next run lists it. */
  lemma StagedNamesAreAccepted(rawId: string, name: string)
    requires Owns(rawId, name)
    ensures SafeFileName(name)
  {
    ObjectNameShape(rawId);
    var id := ObjectName(rawId).value;
    CanonicalMeansDashedForm(id);
    if name == id {
      assert forall k :: 0 <= k < |name| ==> name[k] != '.';
      TextStartsWhereItsFirstCharacterDoes(name, ".attempt-", |name|);
      NoExtension(name, |name|);
    } else {
      assert id + ".attempt-" <= name;
      assert forall k :: 0 <= k < 36 ==> name[k] == (id + ".attempt-")[k] == id[k];
      assert ".attempt-" <= name[36..] by {
        assert name[36..45] == (id + ".attempt-")[36..45] == ".attempt-";
      }
      TextStartsWhereItsFirstCharacterDoes(name, ".attempt-", 36);
      assert name[..36] == id;
    }
  }
}
