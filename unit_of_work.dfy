/** The unit of work of src/service_layer/unit_of_work.py: items are staged, then
    either handed to the repository in staging order or dropped. */
module UnitOfWork {

  /** The repository a unit of work commits into, seen through the one call the
      unit of work makes on it: `add(item)`. It records every item it is given. */
  class ItemRepository<T> {
    var added: seq<T>

    constructor ()
      ensures added == []
    {
      added := [];
    }

    method Add(item: T)
      modifies this
      ensures added == old(added) + [item]
    {
      added := added + [item];
    }
  }

  class InMemoryUoW<T> {
    /** `None` in the source becomes `null`: a unit of work with nowhere to commit. */
    const repo: ItemRepository?<T>
    var staged: seq<T>

    constructor (repo: ItemRepository?<T>)
      ensures this.repo == repo && staged == []
    {
      this.repo := repo;
      staged := [];
    }

    /** `stage`: the item goes to the end of the staged list. */
    method Stage(item: T)
      modifies this
      ensures staged == old(staged) + [item]
    {
      staged := staged + [item];
    }

    /** `commit`: every staged item is added to the repository, in staging
        order, and the staged list is emptied. Without a repository the staged
        items are only dropped. */
    method Commit()
      modifies this, repo
      ensures staged == []
      ensures repo != null ==> repo.added == old(repo.added) + old(staged)
    {
      if repo != null {
        for i := 0 to |staged|
          invariant staged == old(staged)
          invariant repo.added == old(repo.added) + staged[..i]
        {
          assert staged[..i + 1] == staged[..i] + [staged[i]];
          repo.Add(staged[i]);
        }
        assert staged[..|staged|] == staged;
      }
      staged := [];
    }

    /** `rollback`: the staged items are dropped and the repository is not
        called. */
    method Rollback()
      modifies this
      ensures staged == []
    {
      staged := [];
    }

    /** `__exit__`: a rollback when the block raised, a commit otherwise. */
    method Exit(raised: bool)
      modifies this, repo
      ensures staged == []
      ensures raised && repo != null ==> repo.added == old(repo.added)
      ensures !raised && repo != null ==> repo.added == old(repo.added) + old(staged)
    {
      if raised {
        Rollback();
      } else {
        Commit();
      }
    }
  }
}
