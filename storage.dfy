/** The two storage tiers the upload endpoints use: the local `uploads/`
    directory (with its `thumbnails/` sub-directory), served statically,
    and the remote object store reached through the client created once at
    start-up (server.js:232-257). */
module Storage {
  import opened Common

  /** The server's disk: file names in `uploads/` and in `uploads/thumbnails/`. */
  datatype Disk = Disk(uploads: set<string>, thumbnails: set<string>)

  /** The remote object store: the keys held in each bucket. */
  type Store = map<string, set<string>>

  datatype Client = Client(url: string, serviceKey: string)

  datatype BackendStatus = NotConfigured | Configured | InitError

  /** The module-level `supabase` handle and `supabaseStatus`. */
  datatype Backend = Backend(client: Option<Client>, status: BackendStatus)

  /** The test every handler makes: `supabase && supabaseStatus === 'configured'`. */
  predicate RemoteEnabled(b: Backend) {
    b.client.Some? && b.status == Configured
  }

  /** Start-up selection of the storage mode from SUPABASE_URL and
      SUPABASE_SERVICE_ROLE_KEY; `createOk` says whether `createClient`
      returned rather than threw. */
  method InitBackend(url: Option<string>, serviceKey: Option<string>, createOk: bool) returns (b: Backend)
    ensures RemoteEnabled(b) <==> EnvSet(url) && EnvSet(serviceKey) && createOk
    ensures b.status == NotConfigured <==> !(EnvSet(url) && EnvSet(serviceKey))
    ensures b.status == InitError <==> EnvSet(url) && EnvSet(serviceKey) && !createOk
    ensures b.client.Some? <==> b.status == Configured
    ensures b.client.Some? ==> b.client.value == Client(url.value, serviceKey.value)
  {
    var client: Option<Client> := None;
    var status := NotConfigured;
    if EnvSet(url) && EnvSet(serviceKey) {
      if createOk {
        client := Some(Client(url.value, serviceKey.value));
        status := Configured;
      } else {
        status := InitError;
      }
    } else {
      status := NotConfigured;
    }
    b := Backend(client, status);
  }

  /** `storage.from(bucket).upload(key, bytes, {upsert: false})`: refused when
      the transport fails (`netOk` false), when the bucket does not exist, or
      when the key is already taken; otherwise the key is added. */
  function RemoteUpload(store: Store, bucket: string, key: string, netOk: bool): (r: (bool, Store))
    ensures r.0 <==> netOk && bucket in store && key !in store[bucket]
    ensures r.0 ==> bucket in r.1 && key in r.1[bucket]
    ensures r.1.Keys == store.Keys
    ensures forall b :: b in store && b != bucket ==> r.1[b] == store[b]
    ensures bucket in store ==> r.1[bucket] - {key} == store[bucket] - {key}
    ensures !r.0 ==> r.1 == store
  {
    if netOk && bucket in store && key !in store[bucket] then
      (true, store[bucket := store[bucket] + {key}])
    else
      (false, store)
  }

  /** `storage.from(bucket).getPublicUrl(key).data.publicUrl` */
  function PublicUrl(c: Client, bucket: string, key: string): string {
    c.url + "/storage/v1/object/public/" + bucket + "/" + key
  }
}
