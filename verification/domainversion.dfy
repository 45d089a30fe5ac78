/**
 * The schema-history `Version` record of the domain model, as the comparator
 * and converter use it: every component may be null (absent).
 */
module DomainVersion {
  import opened Jdk

  datatype Version = Version(major: Option<Int32>, minor: Option<Int32>, maintenance: Option<Int32>, qualifier: Option<string>)

  /** A freshly created record: nothing set. */
  const Empty: Version := Version(None, None, None, None)
}
