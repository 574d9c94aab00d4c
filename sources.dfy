/**
 * The data-source service: the source table with its name check and name
 * lock, the node's connection pool and the cluster-wide release of a pooled
 * connection, the version normalisation of a test connection, and the
 * upload entry points that look up a source before the upload rules apply.
 */
module Sources {
  import opened Base
  import opened Text
  import opened Records
  import opened Coordination
  import opened SourceUpload

  datatype SourceError =
    | NotFound
    | Unauthorized
    | NameTaken
    | InvalidSourceType
    | NullLock
    | ConnectionFailed
    | CreateFailed
    | UpdateFailed
    | InUse
    | WrongCredentials
    | UploadFailed(reason: UploadError)

  /** A creation request: the project, the name, the type and the settings (password in clear). */
  datatype SourceCreate = SourceCreate(projectId: int, name: string, sourceType: string, config: SourceConfig)

  /** An update request: the source id, the new name and type, and the new settings (password in clear). */
  datatype SourceInfo = SourceInfo(id: int, name: string, sourceType: string, config: SourceConfig)

  /** The settings of a test connection. */
  datatype ConnectionTest = ConnectionTest(url: string, username: string, password: string, version: Option<string>, ext: bool)

  /** StringUtils.isEmpty on an optional string: absent or "". */
  predicate IsEmpty(s: Option<string>) {
    s.None? || s.value == ""
  }

  /**
   * testSource's normalisation: without ext the version is dropped; an
   * empty or default version then drops ext too. `defaultVersion` is the
   * configured name of the default driver version.
   */
  function Normalise(t: ConnectionTest, defaultVersion: string): (r: ConnectionTest)
    ensures r.ext ==> !IsEmpty(r.version) && r.version.value != defaultVersion
    ensures !r.ext ==> r.version.None?
    ensures !t.ext ==> !r.ext
    ensures r.ext ==> r == t
    ensures r.ext <==> t.ext && !IsEmpty(t.version) && t.version.value != defaultVersion
    ensures r == t.(version := r.version, ext := r.ext)
  {
    var version := if !t.ext then None else t.version;
    if IsEmpty(version) || version.value == defaultVersion then t.(version := None, ext := false)
    else t.(version := version)
  }

  /** Normalising twice changes nothing more. */
  lemma NormaliseIdempotent(t: ConnectionTest, defaultVersion: string)
    ensures Normalise(Normalise(t, defaultVersion), defaultVersion) == Normalise(t, defaultVersion)
  {
  }

  /**
   * testSource: the connection is tried with the normalised settings;
   * success answers true and a failure is an error.
   */
  function TestSource(t: ConnectionTest, defaultVersion: string, connects: ConnectionTest -> bool): (r: Result<bool, SourceError>)
    ensures r.Ok? <==> connects(Normalise(t, defaultVersion))
    ensures r.Ok? ==> r.value
    ensures r.Err? ==> r.error == ConnectionFailed
  {
    if connects(Normalise(t, defaultVersion)) then Ok(true) else Err(ConnectionFailed)
  }

  /** The stored form of settings: the password encrypted. */
  function Stored(config: SourceConfig, encrypt: string -> string): SourceConfig {
    config.(password := encrypt(config.password))
  }

  /** The source an update leaves in the table: new name, type and settings, same id and project. */
  function Updated(s: Source, info: SourceInfo, encrypt: string -> string): (u: Source)
    ensures u.id == s.id && u.projectId == s.projectId
    ensures u.name == info.name && u.sourceType == info.sourceType
    ensures u.config == Stored(info.config, encrypt)
  {
    Source(s.id, s.projectId, info.name, info.sourceType, Stored(info.config, encrypt))
  }

  /**
   * updateSource's new fingerprint as the code builds it: the label from the
   * settings' name, and the password in clear, where the stored one it is
   * compared with is encrypted.
   */
  function AsWrittenNewKey(s: Source, info: SourceInfo): ConnectionKey {
    ConnectionKey(SourceLabel(s.id, info.config.name), info.config.url, info.config.username,
                  info.config.password, info.config.version, info.config.ext)
  }

  /**
   * As written, an update that repeats the stored settings unchanged still
   * releases the pooled connection whenever encryption changes the password,
   * which it does for any real cipher.
   */
  lemma AsWrittenReleasesUnchanged(s: Source, info: SourceInfo, encrypt: string -> string, plain: string)
    requires info.name == s.name && info.sourceType == s.sourceType && info.config.name == s.name
    requires info.config == s.config.(password := plain) && s.config.password == encrypt(plain)
    requires encrypt(plain) != plain
    ensures Updated(s, info, encrypt) == s
    ensures AsWrittenNewKey(s, info) != PoolKey(s)
  {
    assert AsWrittenNewKey(s, info).password == plain;
  }

  /**
   * The fingerprint comparison the update intends: the old pooled connection
   * is released exactly when one of label, url, username, stored password,
   * version or ext changes.
   */
  lemma ReleaseIffFingerprintChanges(s: Source, info: SourceInfo, encrypt: string -> string)
    ensures PoolKey(Updated(s, info, encrypt)) != PoolKey(s) <==>
              info.name != s.name || info.config.url != s.config.url || info.config.username != s.config.username
              || encrypt(info.config.password) != s.config.password || info.config.version != s.config.version
              || info.config.ext != s.config.ext
  {
    var u := Updated(s, info, encrypt);
    if SourceLabel(u.id, u.name) == SourceLabel(s.id, s.name) {
      SourceLabelInjective(u.id, u.name, s.id, s.name);
    }
  }

  /**
   * The table's invariant: ids are positive, below the next id to assign and
   * match their key, and no two sources of a project share a name.
   */
  ghost predicate ValidSources(sources: map<int, Source>, nextId: int) {
    && 0 < nextId
    && (forall k :: k in sources ==> 0 < k < nextId && sources[k].id == k)
    && (forall a, b ::
          a in sources && b in sources && sources[a].name == sources[b].name
          && sources[a].projectId == sources[b].projectId
          ==> a == b)
  }

  class SourceService {
    /** The source table, by id; configs hold passwords encrypted. */
    var sources: map<int, Source>
    /** The id the table assigns to the next insert. */
    var nextId: int
    /** The view table: the source each view queries, by view id. */
    var views: map<int, int>
    /**
     * Fingerprints of the connections pooled on this node, as far as
     * releases go: the connections a connection test opens are not added.
     */
    var pool: set<ConnectionKey>
    /** Ids of the sources released on this node and announced to the others. */
    var releaseSet: set<int>
    const store: Store
    /** The source type names the type enumeration knows. */
    const sourceTypes: set<string>
    /** The password cipher. */
    const encrypt: string -> string
    const decrypt: string -> string

    ghost predicate Valid()
      reads this
    {
      ValidSources(sources, nextId)
    }

    /** Source `k` is stored under `name` in project `projectId`. */
    ghost predicate Holds(k: int, name: string, projectId: int)
      reads this
    {
      k in sources && sources[k].name == name && sources[k].projectId == projectId
    }

    /** Some source other than `id` holds the name in the project. */
    ghost predicate NameInUse(name: string, projectId: int, id: Option<int>)
      reads this
    {
      exists k :: Holds(k, name, projectId) && (id.None? || k != id.value)
    }

    /** Some view queries the source. */
    ghost predicate Used(id: int)
      reads this
    {
      exists v :: v in views && views[v] == id
    }

    function NameLockKey(name: string, projectId: int): LockKey {
      NameKey(SourceEntity, name, Some(projectId))
    }

    constructor (store: Store, sourceTypes: set<string>, encrypt: string -> string, decrypt: string -> string)
      ensures Valid() && this.store == store && this.sourceTypes == sourceTypes
      ensures this.encrypt == encrypt && this.decrypt == decrypt
      ensures sources == map[] && views == map[] && pool == {} && releaseSet == {}
    {
      sources := map[];
      nextId := 1;
      views := map[];
      pool := {};
      releaseSet := {};
      this.store := store;
      this.sourceTypes := sourceTypes;
      this.encrypt := encrypt;
      this.decrypt := decrypt;
    }

    /** The mapper's lookup of a source id by name within a project. */
    method FindByName(name: string, projectId: int) returns (found: Option<int>)
      ensures found.Some? ==> Holds(found.value, name, projectId)
      ensures found.None? ==> forall k :: !Holds(k, name, projectId)
    {
      if k :| k in sources && sources[k].name == name && sources[k].projectId == projectId {
        found := Some(k);
      } else {
        found := None;
      }
    }

    /** The name is taken exactly when another source of the project holds it. */
    method IsExist(name: string, id: Option<int>, projectId: int) returns (taken: bool)
      requires Valid()
      ensures taken <==> NameInUse(name, projectId, id)
    {
      var found := FindByName(name, projectId);
      taken := IsNameTaken(found, id);
    }

    /**
     * releaseSource: the pooled connection is dropped here and, with Redis
     * on, the id is recorded and the other nodes are told to drop theirs.
     */
    method ReleaseConnection(s: Source)
      modifies this`pool, this`releaseSet, store`published
      ensures pool == old(pool) - {PoolKey(s)}
      ensures store.enabled ==>
                releaseSet == old(releaseSet) + {s.id}
                && store.published == old(store.published) + [Message(SourceHandler, ReleaseSource(PoolKey(s)), IntToString(s.id))]
      ensures !store.enabled ==> releaseSet == old(releaseSet) && store.published == old(store.published)
    {
      pool := pool - {PoolKey(s)};
      if store.enabled {
        releaseSet := releaseSet + {s.id};
        store.Publish(Message(SourceHandler, ReleaseSource(PoolKey(s)), IntToString(s.id)));
      }
    }

    /** Why a creation is refused before anything is written, in the order the checks run. */
    ghost function CreateRejection(req: SourceCreate, mayWrite: bool, connects: bool): Option<SourceError>
      reads this, store
    {
      if !mayWrite then Some(Unauthorized)
      else if NameInUse(req.name, req.projectId, None) then Some(NameTaken)
      else if req.sourceType !in sourceTypes then Some(InvalidSourceType)
      else if store.locking && NameLockKey(req.name, req.projectId) in store.held then Some(NameTaken)
      else if !connects then Some(ConnectionFailed)
      else None
    }

    /**
     * createSource: permission, name check, type check, name lock,
     * connection test, insert; the lock is released on every path.
     */
    method CreateSource(req: SourceCreate, mayWrite: bool, connects: bool, inserted: bool)
      returns (r: Result<Source, SourceError>)
      requires Valid()
      modifies this, store`held
      ensures Valid() && views == old(views) && pool == old(pool) && releaseSet == old(releaseSet)
      ensures store.held == old(store.held)
      ensures old(CreateRejection(req, mayWrite, connects)).Some? ==>
                r == Err(old(CreateRejection(req, mayWrite, connects)).value) && sources == old(sources)
      ensures old(CreateRejection(req, mayWrite, connects)).None? && !inserted ==>
                r == Err(CreateFailed) && sources == old(sources)
      ensures r.Ok? <==> old(CreateRejection(req, mayWrite, connects)).None? && inserted
      ensures r.Ok? ==>
                r.value == Source(old(nextId), req.projectId, req.name, req.sourceType, Stored(req.config, encrypt))
                && old(nextId) !in old(sources) && sources == old(sources)[old(nextId) := r.value]
    {
      if !mayWrite {
        return Err(Unauthorized);
      }
      var taken := IsExist(req.name, None, req.projectId);
      if taken {
        return Err(NameTaken);
      }
      assert forall k :: k in sources ==> !Holds(k, req.name, req.projectId);
      if req.sourceType !in sourceTypes {
        return Err(InvalidSourceType);
      }
      var lock := store.NameLock(SourceEntity, req.name, Some(req.projectId));
      var acquired := store.Acquire(lock);
      if !acquired {
        return Err(NameTaken);
      }
      if lock.Some? {
        AcquireThenReleaseRestores(old(store.held), lock.value, store.nameLockTtl);
      }
      if !connects {
        store.Release(lock);
        return Err(ConnectionFailed);
      }
      if !inserted {
        store.Release(lock);
        return Err(CreateFailed);
      }
      var s := Source(nextId, req.projectId, req.name, req.sourceType, Stored(req.config, encrypt));
      sources := sources[nextId := s];
      nextId := nextId + 1;
      store.Release(lock);
      r := Ok(s);
    }

    /**
     * Why an update is refused before anything is written, in the order the
     * checks run. The update dereferences the name lock without a null check,
     * so when the helper hands out no lock object it fails there.
     */
    ghost function UpdateRejection(info: SourceInfo, mayWrite: bool, connects: bool): Option<SourceError>
      reads this, store
    {
      if info.id !in sources then Some(NotFound)
      else if !mayWrite then Some(Unauthorized)
      else if NameInUse(info.name, sources[info.id].projectId, Some(info.id)) then Some(NameTaken)
      else if !store.locking then Some(NullLock)
      else if NameLockKey(info.name, sources[info.id].projectId) in store.held then Some(NameTaken)
      else if !connects then Some(ConnectionFailed)
      else None
    }

    /**
     * updateSource: lookup, permission, name check, name lock, connection
     * test, update; then the old pooled connection is released when its
     * fingerprint differs from the updated source's. The lock is released on
     * every path after it was taken.
     */
    method UpdateSource(info: SourceInfo, mayWrite: bool, connects: bool, updated: bool)
      returns (r: Result<Source, SourceError>)
      requires Valid()
      modifies this, store`held, store`published
      ensures Valid() && nextId == old(nextId) && views == old(views)
      ensures store.held == old(store.held)
      ensures old(UpdateRejection(info, mayWrite, connects)).Some? ==>
                r == Err(old(UpdateRejection(info, mayWrite, connects)).value)
      ensures old(UpdateRejection(info, mayWrite, connects)).None? && !updated ==> r == Err(UpdateFailed)
      ensures r.Err? ==>
                sources == old(sources) && pool == old(pool) && releaseSet == old(releaseSet)
                && store.published == old(store.published)
      ensures r.Ok? <==> old(UpdateRejection(info, mayWrite, connects)).None? && updated
      ensures r.Ok? ==>
                r.value == Updated(old(sources)[info.id], info, encrypt)
                && sources == old(sources)[info.id := r.value]
      ensures r.Ok? && PoolKey(r.value) == PoolKey(old(sources)[info.id]) ==>
                pool == old(pool) && releaseSet == old(releaseSet) && store.published == old(store.published)
      ensures r.Ok? && PoolKey(r.value) != PoolKey(old(sources)[info.id]) ==>
                pool == old(pool) - {PoolKey(old(sources)[info.id])}
      ensures r.Ok? && PoolKey(r.value) != PoolKey(old(sources)[info.id]) && !store.enabled ==>
                releaseSet == old(releaseSet) && store.published == old(store.published)
      ensures r.Ok? && PoolKey(r.value) != PoolKey(old(sources)[info.id]) && store.enabled ==>
                releaseSet == old(releaseSet) + {info.id}
                && store.published == old(store.published)
                   + [Message(SourceHandler, ReleaseSource(PoolKey(old(sources)[info.id])), IntToString(info.id))]
    {
      if info.id !in sources {
        return Err(NotFound);
      }
      var s := sources[info.id];
      if !mayWrite {
        return Err(Unauthorized);
      }
      var taken := IsExist(info.name, Some(s.id), s.projectId);
      if taken {
        return Err(NameTaken);
      }
      assert forall k :: k in sources && k != info.id ==> !Holds(k, info.name, s.projectId);
      var lock := store.NameLock(SourceEntity, info.name, Some(s.projectId));
      if lock.None? {
        return Err(NullLock);
      }
      var acquired := store.TryLock(lock.value, store.nameLockTtl);
      if !acquired {
        return Err(NameTaken);
      }
      AcquireThenReleaseRestores(old(store.held), lock.value, store.nameLockTtl);
      if !connects {
        store.Release(lock);
        return Err(ConnectionFailed);
      }
      if !updated {
        store.Release(lock);
        return Err(UpdateFailed);
      }
      var u := Updated(s, info, encrypt);
      sources := sources[info.id := u];
      if PoolKey(u) != PoolKey(s) {
        ReleaseConnection(s);
      }
      store.Release(lock);
      r := Ok(u);
    }

    /**
     * deleteSource: lookup, permission, then refusal while a view uses the
     * source; the pooled connection is released only when the row was
     * deleted.
     */
    method DeleteSource(id: int, mayWrite: bool, deleted: bool) returns (r: Result<bool, SourceError>)
      requires Valid()
      modifies this, store`published
      ensures Valid() && nextId == old(nextId) && views == old(views)
      ensures id !in old(sources) ==> r == Err(NotFound)
      ensures id in old(sources) && !mayWrite ==> r == Err(Unauthorized)
      ensures id in old(sources) && mayWrite && old(Used(id)) ==> r == Err(InUse)
      ensures id in old(sources) && mayWrite && !old(Used(id)) ==> r == Ok(deleted)
      ensures r == Ok(true) ==>
                sources == old(sources) - {id}
                && pool == old(pool) - {PoolKey(old(sources)[id])}
      ensures r == Ok(true) && store.enabled ==>
                releaseSet == old(releaseSet) + {id}
                && store.published == old(store.published)
                     + [Message(SourceHandler, ReleaseSource(PoolKey(old(sources)[id])), IntToString(id))]
      ensures r == Ok(true) && !store.enabled ==>
                releaseSet == old(releaseSet) && store.published == old(store.published)
      ensures r != Ok(true) ==>
                sources == old(sources) && pool == old(pool) && releaseSet == old(releaseSet)
                && store.published == old(store.published)
    {
      if id !in sources {
        return Err(NotFound);
      }
      var s := sources[id];
      if !mayWrite {
        return Err(Unauthorized);
      }
      if v :| v in views && views[v] == id {
        return Err(InUse);
      }
      if deleted {
        sources := sources - {id};
        ReleaseConnection(s);
      }
      r := Ok(deleted);
    }

    /**
     * reconnect: the supplied user and password must match the stored
     * username and the decrypted stored password before anything is
     * released; then the connection is released and tested afresh.
     */
    method Reconnect(id: int, dbUser: string, dbPassword: string, mayWrite: bool, connects: bool)
      returns (r: Result<bool, SourceError>)
      requires Valid()
      modifies this`pool, this`releaseSet, store`published
      ensures id !in sources ==> r == Err(NotFound)
      ensures id in sources && !mayWrite ==> r == Err(Unauthorized)
      ensures id in sources && mayWrite ==>
                (r == Err(WrongCredentials) <==>
                   !(dbUser == sources[id].config.username && dbPassword == decrypt(sources[id].config.password)))
      ensures id in sources && mayWrite && dbUser == sources[id].config.username
                && dbPassword == decrypt(sources[id].config.password) ==>
                r == Ok(connects)
      ensures r.Err? ==>
                pool == old(pool) && releaseSet == old(releaseSet) && store.published == old(store.published)
      ensures r.Ok? ==> r.value == connects && pool == old(pool) - {PoolKey(sources[id])}
      ensures r.Ok? && store.enabled ==>
                releaseSet == old(releaseSet) + {id}
                && store.published == old(store.published)
                     + [Message(SourceHandler, ReleaseSource(PoolKey(sources[id])), IntToString(id))]
      ensures r.Ok? && !store.enabled ==>
                releaseSet == old(releaseSet) && store.published == old(store.published)
    {
      if id !in sources {
        return Err(NotFound);
      }
      var s := sources[id];
      if !mayWrite {
        return Err(Unauthorized);
      }
      if !(dbUser == s.config.username && dbPassword == decrypt(s.config.password)) {
        return Err(WrongCredentials);
      }
      ReleaseConnection(s);
      r := Ok(connects);
    }

    /** validCsvmeta: lookup, permission, then the table rule of the mode. */
    method ValidCsvmeta(sourceId: int, mode: UploadMode, mayWrite: bool, tablePresent: bool)
      returns (e: Option<SourceError>)
      ensures sourceId !in sources ==> e == Some(NotFound)
      ensures sourceId in sources && !mayWrite ==> e == Some(Unauthorized)
      ensures sourceId in sources && mayWrite ==>
                e == (if TableCheck(mode, tablePresent).Some? then Some(UploadFailed(TableCheck(mode, tablePresent).value))
                      else None)
    {
      if sourceId !in sources {
        return Some(NotFound);
      }
      if !mayWrite {
        return Some(Unauthorized);
      }
      var check := TableCheck(mode, tablePresent);
      if check.Some? {
        return Some(UploadFailed(check.value));
      }
      e := None;
    }

    /**
     * dataUpload: lookup, permission and the upload guards, then the
     * statements of the mode run against the table; on success the answer
     * is the list of statements run.
     */
    method DataUpload(sourceId: int, mayWrite: bool, fileType: FileType, looksLikeCsv: bool, looksLikeExcel: bool,
                      mysqlUrl: bool, mode: UploadMode, columns: nat, rows: nat, tablePresent: bool)
      returns (r: Result<seq<SqlAction>, SourceError>)
      ensures sourceId !in sources ==> r == Err(NotFound)
      ensures sourceId in sources && !mayWrite ==> r == Err(Unauthorized)
      ensures sourceId in sources && mayWrite && UploadGuard(fileType, looksLikeCsv, looksLikeExcel, mysqlUrl).Some? ==>
                r == Err(UploadFailed(UploadGuard(fileType, looksLikeCsv, looksLikeExcel, mysqlUrl).value))
      ensures r.Ok? ==>
                UploadPlan(mode, columns, rows, tablePresent) == Ok(r.value) && Runs(r.value, tablePresent)
      ensures sourceId in sources && mayWrite && UploadGuard(fileType, looksLikeCsv, looksLikeExcel, mysqlUrl).None? ==>
                (r.Ok? <==> UploadPlan(mode, columns, rows, tablePresent).Ok?)
      ensures sourceId in sources && mayWrite && UploadGuard(fileType, looksLikeCsv, looksLikeExcel, mysqlUrl).None?
                && UploadPlan(mode, columns, rows, tablePresent).Err? ==>
                r == Err(UploadFailed(UploadPlan(mode, columns, rows, tablePresent).error))
    {
      if sourceId !in sources {
        return Err(NotFound);
      }
      if !mayWrite {
        return Err(Unauthorized);
      }
      var guard := UploadGuard(fileType, looksLikeCsv, looksLikeExcel, mysqlUrl);
      if guard.Some? {
        return Err(UploadFailed(guard.value));
      }
      var plan := UploadPlan(mode, columns, rows, tablePresent);
      if plan.Err? {
        return Err(UploadFailed(plan.error));
      }
      UploadPlanRuns(mode, columns, rows, tablePresent);
      r := Ok(plan.value);
    }
  }
}
