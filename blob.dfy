/** app/blob_service.py: the Azure Blob wrapper. The SDK calls (client set-up,
    the container check, the upload, SAS signing) are outcomes passed in; what
    is modelled is the account-detail parser, the guards and the URL shape. */
module Blob {
  import opened Common
  import opened Text
  import Base64

  /** The characters `Clean` may cut off either end: whitespace and both quotes. */
  const CleanCut: set<char> := Whitespace + {'"', '\''}

  /** `s[i..j]` is what is left of `s` after cutting characters of `cut` off both ends. */
  predicate Trimmed(s: string, i: int, j: int, cut: set<char>) {
    && 0 <= i <= j <= |s|
    && (forall k :: 0 <= k < i ==> s[k] in cut)
    && (forall k :: j <= k < |s| ==> s[k] in cut)
  }

  /** `s.strip().strip('"').strip("'")`. */
  function Clean(s: string): (r: string)
    ensures r != [] ==> r[0] != '\'' && r[|r| - 1] != '\''
    ensures (forall k :: 0 <= k < |s| ==> IsSpace(s[k])) ==> r == []
    ensures exists i, j :: Trimmed(s, i, j, CleanCut) && r == s[i..j]
    ensures s != [] && s[0] !in CleanCut && s[|s| - 1] !in CleanCut ==> r == s
  {
    var a := Strip(s);
    BlankIff(s);
    assert (forall k :: 0 <= k < |s| ==> IsSpace(s[k])) ==> a == [];
    var b := StripSet(a, {'"'});
    assert a == [] ==> b == [];
    CleanIsSlice(s);
    CleanKeeps(s);
    StripSet(b, {'\''})
  }

  /** One strip cuts only characters of its set, so of any larger set. */
  lemma StripTrimmed(s: string, cs: set<char>, cut: set<char>)
    requires cs <= cut
    ensures exists i, j :: Trimmed(s, i, j, cut) && StripSet(s, cs) == s[i..j]
  {
    var i, j :| 0 <= i <= j <= |s| && StripSet(s, cs) == s[i..j]
                && (forall k :: 0 <= k < i ==> s[k] in cs)
                && (forall k :: j <= k < |s| ==> s[k] in cs);
    assert Trimmed(s, i, j, cut);
  }

  /** Trimming what a trim left is one trim of the original. */
  lemma TrimCompose(s: string, t: string, r: string, i1: int, j1: int, i2: int, j2: int, cut: set<char>)
    requires Trimmed(s, i1, j1, cut) && t == s[i1..j1]
    requires Trimmed(t, i2, j2, cut) && r == t[i2..j2]
    ensures Trimmed(s, i1 + i2, i1 + j2, cut) && r == s[i1 + i2..i1 + j2]
  {
    forall k | i1 <= k < i1 + i2 ensures s[k] in cut {
      assert s[k] == t[k - i1];
    }
    forall k | i1 + j2 <= k < j1 ensures s[k] in cut {
      assert s[k] == t[k - i1];
    }
    assert forall k :: 0 <= k < j2 - i2 ==> r[k] == s[i1 + i2 + k];
  }

  /** Three trims in a row are one trim. */
  lemma ThreeTrims(s: string, a: string, b: string, r: string, cut: set<char>)
    requires exists i, j :: Trimmed(s, i, j, cut) && a == s[i..j]
    requires exists i, j :: Trimmed(a, i, j, cut) && b == a[i..j]
    requires exists i, j :: Trimmed(b, i, j, cut) && r == b[i..j]
    ensures exists i, j :: Trimmed(s, i, j, cut) && r == s[i..j]
  {
    var i1, j1 :| Trimmed(s, i1, j1, cut) && a == s[i1..j1];
    var i2, j2 :| Trimmed(a, i2, j2, cut) && b == a[i2..j2];
    var i3, j3 :| Trimmed(b, i3, j3, cut) && r == b[i3..j3];
    TrimCompose(s, a, b, i1, j1, i2, j2, cut);
    TrimCompose(s, b, r, i1 + i2, i1 + j2, i3, j3, cut);
  }

  /** The three strips together cut only whitespace and quotes off the ends. */
  lemma CleanIsSlice(s: string)
    ensures exists i, j :: Trimmed(s, i, j, CleanCut) && StripSet(StripSet(Strip(s), {'"'}), {'\''}) == s[i..j]
  {
    var a := Strip(s);
    var b := StripSet(a, {'"'});
    StripTrimmed(s, Whitespace, CleanCut);
    StripTrimmed(a, {'"'}, CleanCut);
    StripTrimmed(b, {'\''}, CleanCut);
    ThreeTrims(s, a, b, StripSet(b, {'\''}), CleanCut);
  }

  /** A string with neither whitespace nor a quote at its ends is kept whole. */
  lemma CleanKeeps(s: string)
    ensures s != [] && s[0] !in CleanCut && s[|s| - 1] !in CleanCut ==>
              StripSet(StripSet(Strip(s), {'"'}), {'\''}) == s
  {
    if s != [] && s[0] !in CleanCut && s[|s| - 1] !in CleanCut {
      StripSetKeeps(s, Whitespace);
      StripSetKeeps(s, {'"'});
      StripSetKeeps(s, {'\''});
    }
  }

  /** A segment contributes an entry only when it holds an `=`. */
  predicate IsEntry(seg: string) {
    '=' in seg
  }

  /** The stripped text before the segment's first `=`. */
  function EntryKey(seg: string): string
    requires IsEntry(seg)
  {
    Strip(SplitOnce(seg, '=').0)
  }

  /** The stripped text after the segment's first `=`, later `=`s included. */
  function EntryValue(seg: string): string
    requires IsEntry(seg)
  {
    Strip(SplitOnce(seg, '=').1)
  }

  predicate HasKey(seg: string, k: string) {
    IsEntry(seg) && EntryKey(seg) == k
  }

  /** The dictionary the loop builds from the segments, taken one by one. */
  function Parts(segs: seq<string>): map<string, string>
    decreases |segs|
  {
    if segs == [] then map[]
    else
      var p := Parts(segs[..|segs| - 1]);
      var last := segs[|segs| - 1];
      if IsEntry(last) then p[EntryKey(last) := EntryValue(last)] else p
  }

  /** The segments of a connection string: the cleaned text split on `;`. */
  function Segments(conn: string): seq<string> {
    Split(Clean(conn), ';')
  }

  /** `parts.get(key)`. */
  function Lookup(parts: map<string, string>, key: string): (r: Option<string>)
    ensures r.Some? <==> key in parts
    ensures r.Some? ==> r.value == parts[key]
  {
    if key in parts then Some(parts[key]) else None
  }

  /** The parsing loop of the constructor. */
  method ParseConnectionString(conn: string) returns (parts: map<string, string>)
    ensures parts == Parts(Segments(conn))
  {
    var items := Segments(conn);
    parts := map[];
    for i := 0 to |items|
      invariant parts == Parts(items[..i])
    {
      PartsSnoc(items, i);
      var item := items[i];
      if '=' in item {
        var kv := SplitOnce(item, '=');
        parts := parts[Strip(kv.0) := Strip(kv.1)];
      }
    }
    assert items[..|items|] == items;
  }

  /** One more segment: the dictionary of the longer prefix. */
  lemma PartsSnoc(segs: seq<string>, i: nat)
    requires i < |segs|
    ensures Parts(segs[..i + 1]) ==
              (if IsEntry(segs[i]) then Parts(segs[..i])[EntryKey(segs[i]) := EntryValue(segs[i])]
               else Parts(segs[..i]))
  {
    assert segs[..i + 1][..i] == segs[..i];
  }

  /** A key is parsed exactly when some segment with an `=` carries it. */
  lemma {:induction false} PartsKeys(segs: seq<string>, k: string)
    ensures k in Parts(segs) <==> exists i :: 0 <= i < |segs| && HasKey(segs[i], k)
    decreases |segs|
  {
    if segs != [] {
      PartsKeys(segs[..|segs| - 1], k);
      PartsLastKey(segs, k);
      CarriersLast(segs, segs[..|segs| - 1], k);
    }
  }

  /** The last segment adds its own key to the keys of the others. */
  lemma PartsLastKey(segs: seq<string>, k: string)
    requires segs != []
    ensures k in Parts(segs) <==> k in Parts(segs[..|segs| - 1]) || HasKey(segs[|segs| - 1], k)
  {
  }

  /** Some segment carries `k`: one of the others, or the last. */
  lemma CarriersLast(segs: seq<string>, init: seq<string>, k: string)
    requires segs != [] && init == segs[..|segs| - 1]
    ensures (exists i :: 0 <= i < |segs| && HasKey(segs[i], k)) <==>
            (exists i :: 0 <= i < |init| && HasKey(init[i], k)) || HasKey(segs[|segs| - 1], k)
  {
    var p := seg => HasKey(seg, k);
    SomeSnoc(segs, init, p);
    assert forall i :: 0 <= i < |segs| ==> p(segs[i]) == HasKey(segs[i], k);
    assert forall i :: 0 <= i < |init| ==> p(init[i]) == HasKey(init[i], k);
  }

  /** Some element satisfies `p`: one before the last, or the last. */
  lemma SomeSnoc<T>(s: seq<T>, init: seq<T>, p: T -> bool)
    requires s != [] && init == s[..|s| - 1]
    ensures (exists i :: 0 <= i < |s| && p(s[i])) <==>
            (exists i :: 0 <= i < |init| && p(init[i])) || p(s[|s| - 1])
  {
    if exists i :: 0 <= i < |s| && p(s[i]) {
      var i :| 0 <= i < |s| && p(s[i]);
      if i < |init| {
        assert init[i] == s[i];
      }
    }
    if exists i :: 0 <= i < |init| && p(init[i]) {
      var i :| 0 <= i < |init| && p(init[i]);
      assert s[i] == init[i];
    }
  }

  /** The last segment carrying a key decides its value. */
  lemma {:induction false} PartsLastWins(segs: seq<string>, i: nat, k: string)
    requires i < |segs| && HasKey(segs[i], k)
    requires forall j :: i < j < |segs| ==> !HasKey(segs[j], k)
    ensures k in Parts(segs) && Parts(segs)[k] == EntryValue(segs[i])
    decreases |segs|
  {
    var init := segs[..|segs| - 1];
    if i < |segs| - 1 {
      assert init[i] == segs[i];
      forall j | i < j < |init| ensures !HasKey(init[j], k) {
        assert init[j] == segs[j];
      }
      PartsLastWins(init, i, k);
    }
  }

  /** A segment `key=value` with no `=` in `key` parses to the stripped halves,
      so a value such as a base 64 key ending in `==` is kept whole. */
  lemma EntryOfSegment(key: string, value: string)
    requires '=' !in key
    ensures IsEntry(key + "=" + value)
    ensures EntryKey(key + "=" + value) == Strip(key)
    ensures EntryValue(key + "=" + value) == Strip(value)
  {
    SplitOnceFirst(key, value, '=');
  }

  /** An all-whitespace connection string yields no entries. */
  lemma BlankConnectionStringHasNoParts(conn: string)
    requires forall k :: 0 <= k < |conn| ==> IsSpace(conn[k])
    ensures Parts(Segments(conn)) == map[]
  {
    assert Segments(conn) == [""];
    assert Parts([""]) == Parts([]);
  }

  /** What the SDK set-up in the constructor came to: `from_connection_string`
      raised, `get_container_client` raised, the existence check or the
      creation raised, or all went through. */
  datatype InitOutcome = ClientFailed | ContainerClientFailed | ContainerCheckFailed | Ready

  /** What an SDK call did: returned, or raised with a message. */
  datatype SdkOutcome = Done | Raised(message: string)

  const NotConfigured := HttpError(500, "Azure Storage not configured")

  /** `str(e)` of the `AttributeError` raised when the container client is `None`. */
  const NoContainerClientMessage := "'NoneType' object has no attribute 'get_blob_client'"

  /** The blob's read URL with its SAS query. */
  function SasUrl(account: string, container: string, filename: string, sas: string): (r: string)
    ensures StartsWith(r, "https://" + account + ".blob.core.windows.net/")
    ensures EndsWith(r, container + "/" + filename + "?" + sas)
    ensures |r| == |"https://" + account + ".blob.core.windows.net/"| + |container + "/" + filename + "?" + sas|
    ensures r != ""
  {
    var host := "https://" + account + ".blob.core.windows.net/";
    var r := host + (container + "/" + filename + "?" + sas);
    assert r[..|host|] == host;
    assert r[|r| - |container + "/" + filename + "?" + sas|..] == container + "/" + filename + "?" + sas;
    r
  }

  class BlobService {
    var connectionString: Option<string>
    var containerName: string
    var hasServiceClient: bool
    var hasContainerClient: bool
    var accountName: Option<string>
    var accountKey: Option<string>

    /** Set-up: the account details are parsed only from a non-empty connection
        string, and only after both clients were obtained; they stay parsed
        even when the container check then fails. */
    constructor(conn: Option<string>, container: string, init: InitOutcome)
      ensures connectionString == conn && containerName == container
      ensures hasServiceClient <==> Truthy(conn) && !init.ClientFailed?
      ensures hasContainerClient <==> Truthy(conn) && (init.ContainerCheckFailed? || init.Ready?)
      ensures hasContainerClient ==> accountName == Lookup(Parts(Segments(conn.value)), "AccountName")
      ensures hasContainerClient ==> accountKey == Lookup(Parts(Segments(conn.value)), "AccountKey")
      ensures !hasContainerClient ==> accountName == None && accountKey == None
    {
      var name, key := None, None;
      var client, containerClient := false, false;
      if Truthy(conn) && !init.ClientFailed? {
        client := true;
        if !init.ContainerClientFailed? {
          containerClient := true;
          var parts := ParseConnectionString(conn.value);
          name := Lookup(parts, "AccountName");
          key := Lookup(parts, "AccountKey");
        }
      }
      connectionString := conn;
      containerName := container;
      hasServiceClient := client;
      hasContainerClient := containerClient;
      accountName := name;
      accountKey := key;
    }

    /** `upload_file`: the filename on success, 500 otherwise. */
    method UploadFile(fileBytes: seq<Base64.byte>, filename: string, contentType: string, upload: SdkOutcome)
      returns (r: Result<string, HttpError>)
      ensures !hasServiceClient ==> r == Err(NotConfigured)
      ensures hasServiceClient && !hasContainerClient ==>
                r == Err(HttpError(500, "Failed to upload to Azure: " + NoContainerClientMessage))
      ensures hasServiceClient && hasContainerClient && upload.Done? ==> r == Ok(filename)
      ensures hasServiceClient && hasContainerClient && upload.Raised? ==>
                r == Err(HttpError(500, "Failed to upload to Azure: " + upload.message))
    {
      if !hasServiceClient {
        return Err(NotConfigured);
      }
      if !hasContainerClient {
        return Err(HttpError(500, "Failed to upload to Azure: " + NoContainerClientMessage));
      }
      match upload
      case Done => r := Ok(filename);
      case Raised(m) => r := Err(HttpError(500, "Failed to upload to Azure: " + m));
    }

    /** `get_sas_url`: "" whenever the URL cannot be made, the URL otherwise;
        since a URL is never empty, "" means failure and nothing else. */
    method GetSasUrl(filename: string, sas: Result<string, string>) returns (url: string)
      ensures url != "" <==> hasServiceClient && Truthy(accountKey) && Truthy(accountName) && sas.Ok?
      ensures url != "" ==> url == SasUrl(accountName.value, containerName, filename, sas.value)
    {
      if !hasServiceClient || !Truthy(accountKey) || !Truthy(accountName) {
        return "";
      }
      match sas
      case Err(_) => url := "";
      case Ok(token) => url := SasUrl(accountName.value, containerName, filename, token);
    }
  }
}
