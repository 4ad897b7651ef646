/**
 * The database session the ingestion routine writes through: objects are
 * added to a pending list and written together by one commit, or dropped by
 * a rollback. The engine's only check that matters here is NOT NULL
 * (app/models.py, lines 26-35): a commit with a null column fails as a whole.
 */
module Store {
  import opened Models

  class Session {
    /** Objects added since the last commit or rollback. */
    var staged: seq<Draft>
    /** Rows written by successful commits. */
    var committed: seq<Feedback>

    constructor ()
      ensures staged == [] && committed == []
    {
      staged := [];
      committed := [];
    }

    /** `db.session.add`. */
    method Add(d: Draft)
      modifies this
      ensures staged == old(staged) + [d]
      ensures committed == old(committed)
    {
      staged := staged + [d];
    }

    /**
     * `db.session.commit`: writes every staged object or none of them. On
     * failure the session keeps its pending objects until a rollback.
     */
    method Commit() returns (ok: bool)
      modifies this
      ensures ok == Persistable(old(staged))
      ensures ok ==> committed == old(committed) + Records(old(staged)) && staged == []
      ensures !ok ==> committed == old(committed) && staged == old(staged)
    {
      ok := Persistable(staged);
      if ok {
        committed := committed + Records(staged);
        staged := [];
      }
    }

    /** `db.session.rollback`: pending objects are discarded, written rows stay. */
    method Rollback()
      modifies this
      ensures staged == []
      ensures committed == old(committed)
    {
      staged := [];
    }
  }
}
