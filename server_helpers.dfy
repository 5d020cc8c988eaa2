/** The small pure computations of server.js: the MIME lookup for
    attachments, the ordering of the statistics rows, the complaint
    counters, the update record of a complaint, the recipient list of the
    village office and the required-field checks of the POST/PUT
    endpoints. */
module ServerHelpers {
  import opened Common
  import opened Text

  /* ---------- getMimeType (server.js:2148-2163) ---------- */

  const OctetStream := "application/octet-stream"

  const MimeTable: map<string, string> := map[
    "jpg" := "image/jpeg",
    "jpeg" := "image/jpeg",
    "png" := "image/png",
    "gif" := "image/gif",
    "pdf" := "application/pdf",
    "doc" := "application/msword",
    "docx" := "application/vnd.openxmlformats-officedocument.wordprocessingml.document"
  ]

  /** `mimeTypes[ext] || 'application/octet-stream'` */
  function MimeLookup(ext: string): string {
    if ext in MimeTable then MimeTable[ext] else OctetStream
  }

  /** `getMimeType(filename)`: octet-stream for a falsy argument; otherwise
      the text after the last '.' (the whole name when there is none),
      lower-cased and looked up. A truthy non-string has no `split` and
      throws. */
  function MimeType(filename: Value): (r: Result<string>)
    ensures !Truthy(filename) ==> r == Ok(OctetStream)
    ensures r.Thrown? <==> Truthy(filename) && !filename.Str?
    ensures r.Ok? ==> r.value == OctetStream || r.value in MimeTable.Values
    ensures filename.Str? && filename.s != "" && '.' !in filename.s ==> r == Ok(MimeLookup(Lower(filename.s)))
  {
    if !Truthy(filename) then Ok(OctetStream)
    else if !filename.Str? then Thrown(TypeError("filename"))
    else Ok(MimeLookup(Lower(AfterLast(filename.s, '.'))))
  }

  /** A name ending in '.' and an extension gets that extension's type,
      whatever case it is written in, and whatever the name before it. */
  lemma MimeTypeByExtension(name: string, ext: string)
    requires '.' !in ext
    ensures MimeType(Str(name + "." + ext)) == Ok(MimeLookup(Lower(ext)))
  {
    assert name + "." + ext == name + ['.'] + ext;
    AfterLastAppend(name, '.', ext);
  }

  /* ---------- statistik ordering (server.js:913-933) ---------- */

  /** A row of the `statistik` table; `name` is its `label` column. */
  datatype Stat = Stat(name: Value, value: Value, icon: Value)

  /** `orderMap` of `sortStatistik`: the nine labels in display order. */
  const OrderMap: map<string, nat> := map[
    "Penduduk" := 1, "Laki-Laki" := 2, "Perempuan" := 3, "Kepala Keluarga" := 4,
    "Diccekang" := 5, "Tamalate" := 6, "Tammu-Tammu" := 7, "Tompo Balang" := 8,
    "Moncongloe Bulu" := 9]

  /** `orderMap[label] || 999`: the key is the label converted to a string;
      no entry is 0, so `||` only replaces a missing one. */
  function Rank(name: Value): nat {
    var key := ToString(name);
    if key in OrderMap then OrderMap[key] else 999
  }

  /** Every listed label ranks 1 to 9 and before every other label. */
  lemma RankRange(name: Value)
    ensures 1 <= Rank(name) <= 9 <==> ToString(name) in OrderMap
    ensures Rank(name) == 999 <==> ToString(name) !in OrderMap
  {
    var key := ToString(name);
    if key in OrderMap {
      assert OrderMap.Keys == {"Penduduk", "Laki-Laki", "Perempuan", "Kepala Keluarga", "Diccekang",
                               "Tamalate", "Tammu-Tammu", "Tompo Balang", "Moncongloe Bulu"};
    }
  }

  predicate SortedByRank(s: seq<Stat>) {
    forall i, j :: 0 <= i < j < |s| ==> Rank(s[i].name) <= Rank(s[j].name)
  }

  /** The rows of rank `k`, in their order. */
  function OfRank(s: seq<Stat>, k: nat): seq<Stat> {
    if |s| == 0 then []
    else (if Rank(s[0].name) == k then [s[0]] else []) + OfRank(s[1..], k)
  }

  /** Puts `x` in front of the first row whose rank is not below its own. */
  function Insert(x: Stat, s: seq<Stat>): (r: seq<Stat>)
    ensures multiset(r) == multiset(s) + multiset{x}
    ensures |r| == |s| + 1
  {
    if |s| == 0 || Rank(s[0].name) >= Rank(x.name) then [x] + s
    else
      assert s == [s[0]] + s[1..];
      [s[0]] + Insert(x, s[1..])
  }

  /** `[...data].sort((a, b) => rank(a) - rank(b))`. The comparator-based
      sort is stable, so it is the insertion sort that keeps equal ranks in
      input order. */
  function SortStatistik(s: seq<Stat>): seq<Stat> {
    if |s| == 0 then [] else Insert(s[0], SortStatistik(s[1..]))
  }

  /** `sortStatistik(data || [])`: missing data gives an empty list, and
      otherwise the rows come back reordered by rank and nothing else. */
  function StatistikResponse(data: Option<seq<Stat>>): (r: seq<Stat>)
    ensures data.None? ==> r == []
    ensures data.Some? ==>
      && multiset(r) == multiset(data.value)
      && SortedByRank(r)
      && forall k: nat :: OfRank(r, k) == OfRank(data.value, k)
  {
    if data.None? then []
    else
      SortStatistikCorrect(data.value);
      SortStatistik(data.value)
  }

  /** A row ranked no later than every row of a sorted list can go in front. */
  lemma SortedCons(y: Stat, r: seq<Stat>)
    requires SortedByRank(r)
    requires forall j :: 0 <= j < |r| ==> Rank(y.name) <= Rank(r[j].name)
    ensures SortedByRank([y] + r)
  {
    var q := [y] + r;
    forall i, j | 0 <= i < j < |q| ensures Rank(q[i].name) <= Rank(q[j].name) {
      assert q[j] == r[j - 1];
      if i > 0 { assert q[i] == r[i - 1]; }
    }
  }

  /** Insertion adds no row ranked before a bound that `x` and `s` respect. */
  lemma {:induction false} InsertBounded(x: Stat, y: Stat, s: seq<Stat>)
    requires Rank(y.name) <= Rank(x.name)
    requires forall j :: 0 <= j < |s| ==> Rank(y.name) <= Rank(s[j].name)
    ensures forall j :: 0 <= j < |Insert(x, s)| ==> Rank(y.name) <= Rank(Insert(x, s)[j].name)
  {
    if |s| == 0 || Rank(s[0].name) >= Rank(x.name) {
      var q := [x] + s;
      assert Insert(x, s) == q;
      forall j | 0 <= j < |q| ensures Rank(y.name) <= Rank(q[j].name) {
        if j > 0 { assert q[j] == s[j - 1]; }
      }
    } else {
      var r := Insert(x, s[1..]);
      InsertBounded(x, y, s[1..]);
      var q := [s[0]] + r;
      assert Insert(x, s) == q;
      forall j | 0 <= j < |q| ensures Rank(y.name) <= Rank(q[j].name) {
        if j > 0 { assert q[j] == r[j - 1]; }
      }
    }
  }

  lemma {:induction false} InsertSorted(x: Stat, s: seq<Stat>)
    requires SortedByRank(s)
    ensures SortedByRank(Insert(x, s))
  {
    if |s| > 0 && Rank(s[0].name) < Rank(x.name) {
      var t := s[1..];
      assert forall j :: 0 <= j < |t| ==> t[j] == s[j + 1];
      InsertSorted(x, t);
      InsertBounded(x, s[0], t);
      SortedCons(s[0], Insert(x, t));
      assert Insert(x, s) == [s[0]] + Insert(x, t);
    } else {
      assert forall j :: 0 <= j < |s| ==> Rank(s[0].name) <= Rank(s[j].name);
      SortedCons(x, s);
      assert Insert(x, s) == [x] + s;
    }
  }

  /** The rows of rank `k` in a list that starts with `y`. */
  lemma OfRankCons(y: Stat, t: seq<Stat>, k: nat)
    ensures OfRank([y] + t, k) == (if Rank(y.name) == k then [y] else []) + OfRank(t, k)
  {
    assert ([y] + t)[0] == y;
    assert ([y] + t)[1..] == t;
  }

  lemma {:induction false} InsertOfRank(x: Stat, s: seq<Stat>, k: nat)
    ensures OfRank(Insert(x, s), k) == (if Rank(x.name) == k then [x] else []) + OfRank(s, k)
  {
    if |s| == 0 || Rank(s[0].name) >= Rank(x.name) {
      assert Insert(x, s) == [x] + s;
      OfRankCons(x, s, k);
    } else {
      var t := s[1..];
      assert s == [s[0]] + t;
      var i := Insert(x, t);
      assert Insert(x, s) == [s[0]] + i;
      InsertOfRank(x, t, k);
      OfRankCons(s[0], i, k);
      OfRankCons(s[0], t, k);
      var o := OfRank(t, k);
      if Rank(x.name) == k {
        // `s[0]` ranks strictly below `x`, so only `x` has rank `k`.
        assert OfRank(i, k) == [x] + o;
        assert OfRank(Insert(x, s), k) == [x] + o;
        assert OfRank(s, k) == o;
      } else {
        assert OfRank(i, k) == o;
        assert OfRank(Insert(x, s), k) == OfRank(s, k);
      }
    }
  }

  /** The statistics come back as a permutation of the rows. */
  lemma {:induction false} SortStatistikPermutes(s: seq<Stat>)
    ensures multiset(SortStatistik(s)) == multiset(s)
  {
    if |s| > 0 {
      var t := s[1..];
      SortStatistikPermutes(t);
      assert s == [s[0]] + t;
      assert multiset(s) == multiset{s[0]} + multiset(t);
    }
  }

  /** The statistics come back ordered by rank. */
  lemma {:induction false} SortStatistikSorted(s: seq<Stat>)
    ensures SortedByRank(SortStatistik(s))
  {
    if |s| > 0 {
      SortStatistikSorted(s[1..]);
      InsertSorted(s[0], SortStatistik(s[1..]));
    }
  }

  /** Rows of equal rank keep their relative order. */
  lemma {:induction false} SortStatistikStable(s: seq<Stat>, k: nat)
    ensures OfRank(SortStatistik(s), k) == OfRank(s, k)
  {
    if |s| > 0 {
      var t := s[1..];
      SortStatistikStable(t, k);
      assert s == [s[0]] + t;
      InsertOfRank(s[0], SortStatistik(t), k);
      OfRankCons(s[0], t, k);
    }
  }

  /** The statistics come back as a permutation of the rows, ordered by
      rank, and rows of equal rank keep their relative order. */
  lemma SortStatistikCorrect(s: seq<Stat>)
    ensures multiset(SortStatistik(s)) == multiset(s)
    ensures SortedByRank(SortStatistik(s))
    ensures forall k: nat :: OfRank(SortStatistik(s), k) == OfRank(s, k)
  {
    SortStatistikPermutes(s);
    SortStatistikSorted(s);
    forall k: nat ensures OfRank(SortStatistik(s), k) == OfRank(s, k) {
      SortStatistikStable(s, k);
    }
  }

  /* ---------- complaint counters (server.js:1739-1748) ---------- */

  /** Rows whose `key` is strictly equal to the string `v`. */
  function CountEq(data: seq<Record>, key: string, v: string): nat {
    if |data| == 0 then 0
    else (if Get(data[0], key) == Str(v) then 1 else 0) + CountEq(data[1..], key, v)
  }

  /** Rows whose `key` is truthy. */
  function CountTruthy(data: seq<Record>, key: string): (n: nat)
    ensures n <= |data|
  {
    if |data| == 0 then 0
    else (if Truthy(Get(data[0], key)) then 1 else 0) + CountTruthy(data[1..], key)
  }

  /** Rows whose `key` is falsy. */
  function CountFalsy(data: seq<Record>, key: string): nat {
    if |data| == 0 then 0
    else (if Truthy(Get(data[0], key)) then 0 else 1) + CountFalsy(data[1..], key)
  }

  lemma {:induction false} TruthyFalsyPartition(data: seq<Record>, key: string)
    ensures CountTruthy(data, key) + CountFalsy(data, key) == |data|
  {
    if |data| > 0 {
      TruthyFalsyPartition(data[1..], key);
    }
  }

  lemma {:induction false} TwoValuesBounded(data: seq<Record>, key: string, a: string, b: string)
    requires a != b
    ensures CountEq(data, key, a) + CountEq(data, key, b) <= |data|
  {
    if |data| > 0 {
      TwoValuesBounded(data[1..], key, a, b);
    }
  }

  lemma {:induction false} ThreeValuesBounded(data: seq<Record>, key: string, a: string, b: string, c: string)
    requires a != b && b != c && a != c
    ensures CountEq(data, key, a) + CountEq(data, key, b) + CountEq(data, key, c) <= |data|
  {
    if |data| > 0 {
      ThreeValuesBounded(data[1..], key, a, b, c);
    }
  }

  datatype Stats = Stats(total: nat, pengaduan: nat, aspirasi: nat, pending: nat, proses: nat,
                         selesai: nat, withAttachment: nat, withoutAttachment: nat)

  /** The counters of the statistics endpoint: every row has an attachment
      or not, and the classification and status counters count disjoint
      rows. */
  function ComputeStats(data: seq<Record>): (s: Stats)
    ensures s.total == |data|
    ensures s.withAttachment + s.withoutAttachment == s.total
    ensures s.pengaduan + s.aspirasi <= s.total
    ensures s.pending + s.proses + s.selesai <= s.total
  {
    TruthyFalsyPartition(data, "lampiran_data_url");
    TwoValuesBounded(data, "klasifikasi", "pengaduan", "aspirasi");
    ThreeValuesBounded(data, "status", "pending", "proses", "selesai");
    Stats(|data|,
          CountEq(data, "klasifikasi", "pengaduan"), CountEq(data, "klasifikasi", "aspirasi"),
          CountEq(data, "status", "pending"), CountEq(data, "status", "proses"),
          CountEq(data, "status", "selesai"),
          CountTruthy(data, "lampiran_data_url"), CountFalsy(data, "lampiran_data_url"))
  }

  /* ---------- PUT /api/pengaduan/:id (server.js:1554-1557) ---------- */

  /** The update record: `status` when truthy, `catatan_admin` unless
      undefined (null is sent on), and the handling date exactly when the
      status becomes "selesai". `nowIso` is `new Date().toISOString()`. */
  function UpdateData(status: Value, catatan: Value, nowIso: string): (r: Record)
    ensures "status" in r <==> Truthy(status)
    ensures "status" in r ==> r["status"] == status
    ensures "catatan_admin" in r <==> !catatan.Undefined?
    ensures "catatan_admin" in r ==> r["catatan_admin"] == catatan
    ensures "tanggal_ditangani" in r <==> status == Str("selesai")
    ensures "tanggal_ditangani" in r ==> r["tanggal_ditangani"] == Str(nowIso)
    ensures r.Keys <= {"status", "catatan_admin", "tanggal_ditangani"}
  {
    var r0: Record := map[];
    var r1 := if Truthy(status) then r0["status" := status] else r0;
    var r2 := if !catatan.Undefined? then r1["catatan_admin" := catatan] else r1;
    if status == Str("selesai") then r2["tanggal_ditangani" := Str(nowIso)] else r2
  }

  /* ---------- recipients (server.js:1512-1514) ---------- */

  const DefaultDesaEmail := "moncongloebulu.desa@gmail.com"

  /** `DESA_EMAIL_RECIPIENTS.split(',').map(e => e.trim())`, or the default
      address when the variable is unset or empty. */
  function DesaRecipients(env: Option<string>): seq<string> {
    if EnvSet(env) then
      var parts := Split(env.value, ',');
      seq(|parts|, i requires 0 <= i < |parts| => Trim(parts[i]))
    else [DefaultDesaEmail]
  }

  /** A trimmed piece with no ',' neither holds one nor starts or ends
      with white space. */
  predicate CleanAddress(a: string) {
    ',' !in a && (a == [] || (!IsJsSpace(a[0]) && !IsJsSpace(a[|a| - 1])))
  }

  lemma TrimmedPieceClean(p: string)
    requires ',' !in p
    ensures CleanAddress(Trim(p))
  {
    var t := Trim(p);
    var a := TrimIsSlice(p);
    forall k | 0 <= k < |t| ensures t[k] != ',' {
      assert t[k] == p[a + k];
    }
  }

  /** One address per comma-separated piece, none holding a ',' or
      starting or ending with white space (an empty piece stays an empty
      address). */
  lemma DesaRecipientsShape(env: Option<string>)
    ensures !EnvSet(env) ==> DesaRecipients(env) == [DefaultDesaEmail]
    ensures EnvSet(env) ==> |DesaRecipients(env)| == Occurrences(env.value, ',') + 1
    ensures forall i :: 0 <= i < |DesaRecipients(env)| ==> CleanAddress(DesaRecipients(env)[i])
  {
    var r := DesaRecipients(env);
    if EnvSet(env) {
      SplitCount(env.value, ',');
      var parts := Split(env.value, ',');
      forall i | 0 <= i < |r| ensures CleanAddress(r[i]) {
        SplitPieceFree(env.value, ',', i);
        TrimmedPieceClean(parts[i]);
      }
    } else {
      assert DefaultDesaEmail[0] == 'm' && DefaultDesaEmail[|DefaultDesaEmail| - 1] == 'm';
      assert ',' !in DefaultDesaEmail;
    }
  }

  /* ---------- required fields (server.js:1142, 1381, 1937, 2035) ---------- */

  datatype Endpoint = BeritaPost | PengaduanPost | DokumentasiPost | DokumentasiPut

  function RequiredFields(e: Endpoint): seq<string> {
    match e
    case BeritaPost => ["judul", "konten"]
    case PengaduanPost => ["judul", "isi", "kategori"]
    case DokumentasiPost => ["title", "description", "category", "author", "download_url"]
    case DokumentasiPut => ["title", "description", "category", "author", "download_url"]
  }

  function RequiredMessage(e: Endpoint): string {
    match e
    case BeritaPost => "Judul dan konten harus diisi"
    case PengaduanPost => "Judul, isi, dan kategori harus diisi"
    case DokumentasiPost => "Title, description, category, author, dan download_url harus diisi"
    case DokumentasiPut => "Semua field wajib diisi"
  }

  /** `!!a && !!b && ...` over the named fields of the body. */
  function AllTruthy(body: Record, fields: seq<string>): (b: bool)
    ensures b <==> forall i :: 0 <= i < |fields| ==> Truthy(Get(body, fields[i]))
  {
    if |fields| == 0 then true
    else Truthy(Get(body, fields[0])) && AllTruthy(body, fields[1..])
  }

  /** The 400 answer of an endpoint's validation, or `None` when it lets
      the request through: any falsy required field is refused. */
  function Validate(e: Endpoint, body: Record): (r: Option<string>)
    ensures r.None? <==> forall f :: f in RequiredFields(e) ==> Truthy(Get(body, f))
    ensures r.Some? ==> r.value == RequiredMessage(e)
  {
    if AllTruthy(body, RequiredFields(e)) then None else Some(RequiredMessage(e))
  }
}
