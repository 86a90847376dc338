/** The factory that collects the configuration of a JSimpleDB instance and resolves its defaults. */
module JSimpleDBFactory {
  import opened Wrappers
  import IntegerType

  /** A core API database the caller configures. */
  datatype Database = Database(id: nat)

  /**
   * The database a JSimpleDB instance is built on: the configured one, or a new, initially
   * empty, in-memory one that no caller can pass in.
   */
  datatype ResolvedDatabase = ConfiguredDatabase(db: Database) | NewInMemoryDatabase

  /** How storage IDs are generated when annotations do not give them. */
  datatype StorageIdGenerator = DefaultStorageIdGenerator | CustomStorageIdGenerator(id: nat)

  /** A Java model class, by name. */
  datatype ModelClass = ModelClass(name: string)

  /**
   * What a new JSimpleDB instance is built from; constructing it (annotation scanning,
   * schema building) is not part of this model.
   */
  datatype JSimpleDB = JSimpleDB(
    database: ResolvedDatabase,
    schemaVersion: IntegerType.Int,
    storageIdGenerator: Option<StorageIdGenerator>,
    classes: Option<seq<ModelClass>>)

  /** The resolution rule of `newJSimpleDB`, on the configured values. */
  function Resolve(database: Option<Database>, schemaVersion: IntegerType.Int,
                   generator: Option<StorageIdGenerator>, classes: Option<seq<ModelClass>>): (db: JSimpleDB)
    ensures database.Some? ==> db.database == ConfiguredDatabase(database.value) && db.schemaVersion == schemaVersion
    ensures database.None? ==> db.database == NewInMemoryDatabase
    ensures database.None? ==> db.schemaVersion == (if schemaVersion == 0 then 1 else schemaVersion)
    ensures db.storageIdGenerator == generator && db.classes == classes
  {
    if database.Some? then JSimpleDB(ConfiguredDatabase(database.value), schemaVersion, generator, classes)
    else JSimpleDB(NewInMemoryDatabase, if schemaVersion == 0 then 1 else schemaVersion, generator, classes)
  }

  /** Only the unconfigured database with version 0 changes the version; every resolved version is nonzero unless a database was configured. */
  lemma ResolvedVersion(database: Option<Database>, schemaVersion: IntegerType.Int,
                        generator: Option<StorageIdGenerator>, classes: Option<seq<ModelClass>>)
    ensures Resolve(database, schemaVersion, generator, classes).schemaVersion != schemaVersion
            <==> database.None? && schemaVersion == 0
    ensures database.None? ==> Resolve(database, schemaVersion, generator, classes).schemaVersion != 0
  {
  }

  class Factory {
    var database: Option<Database>
    var schemaVersion: IntegerType.Int
    var storageIdGenerator: Option<StorageIdGenerator>
    var classes: Option<seq<ModelClass>>

    /** A new factory: no database, version 0, the default storage ID generator, no classes. */
    constructor ()
      ensures database == None && schemaVersion == 0
      ensures storageIdGenerator == Some(DefaultStorageIdGenerator) && classes == None
    {
      database := None;
      schemaVersion := 0;
      storageIdGenerator := Some(DefaultStorageIdGenerator);
      classes := None;
    }

    /** `setModelClasses`. */
    method SetModelClasses(newClasses: Option<seq<ModelClass>>) returns (self: Factory)
      modifies this
      ensures self == this && classes == newClasses
      ensures database == old(database) && schemaVersion == old(schemaVersion)
      ensures storageIdGenerator == old(storageIdGenerator)
    {
      classes := newClasses;
      self := this;
    }

    /** `setDatabase`. */
    method SetDatabase(newDatabase: Option<Database>) returns (self: Factory)
      modifies this
      ensures self == this && database == newDatabase
      ensures schemaVersion == old(schemaVersion) && storageIdGenerator == old(storageIdGenerator)
      ensures classes == old(classes)
    {
      database := newDatabase;
      self := this;
    }

    /** `setSchemaVersion`. */
    method SetSchemaVersion(newVersion: IntegerType.Int) returns (self: Factory)
      modifies this
      ensures self == this && schemaVersion == newVersion
      ensures database == old(database) && storageIdGenerator == old(storageIdGenerator)
      ensures classes == old(classes)
    {
      schemaVersion := newVersion;
      self := this;
    }

    /** `setStorageIdGenerator`: None (null) disables generation. */
    method SetStorageIdGenerator(generator: Option<StorageIdGenerator>) returns (self: Factory)
      modifies this
      ensures self == this && storageIdGenerator == generator
      ensures database == old(database) && schemaVersion == old(schemaVersion)
      ensures classes == old(classes)
    {
      storageIdGenerator := generator;
      self := this;
    }

    /**
     * `newJSimpleDB`: works on local copies of the database and version, so the factory is
     * left unchanged and the result depends only on its configuration.
     */
    method NewJSimpleDB() returns (db: JSimpleDB)
      ensures db == Resolve(database, schemaVersion, storageIdGenerator, classes)
    {
      var database1 := database;
      var schemaVersion1 := schemaVersion;
      var resolved: ResolvedDatabase;
      if database1.None? {
        resolved := NewInMemoryDatabase;
        if schemaVersion1 == 0 {
          schemaVersion1 := 1;
        }
      } else {
        resolved := ConfiguredDatabase(database1.value);
      }
      db := JSimpleDB(resolved, schemaVersion1, storageIdGenerator, classes);
    }
  }

  /** A client: configuring only a version of 0 on a new factory yields a new in-memory database at version 1. */
  method DefaultConfiguration() returns (db: JSimpleDB)
    ensures db.database == NewInMemoryDatabase && db.schemaVersion == 1
    ensures db.storageIdGenerator == Some(DefaultStorageIdGenerator)
  {
    var f := new Factory();
    var same := f.SetSchemaVersion(0);
    db := same.NewJSimpleDB();
  }
}
