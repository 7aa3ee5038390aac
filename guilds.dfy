/** The bot's extension of the platform guild: the cached configuration and
    `fetchConfig`, which reads it through from the `guilds` table. */
module Guilds {
  import opened Wrappers
  import opened Platform
  import opened GuildConfigs

  /** The row holds a role list that is not valid JSON: building the object throws. */
  datatype FetchError = RowDoesNotParse

  class TrackedGuild {
    const id: Id
    var config: Option<GuildConfig>

    constructor (id: Id)
      ensures this.id == id && config.None?
    {
      this.id := id;
      config := None;
    }

    /** `fetchConfig(force)`: the cached object unless forced or missing; otherwise one
        SELECT, an INSERT of the bare id when there is no row, and a new cached object
        built from the row (or from the bare id). */
    method FetchConfig(force: bool, store: ConfigStore) returns (r: Result<GuildConfig, FetchError>)
      modifies this, store
      ensures old(config).Some? && !force ==>
        r == Ok(old(config).value) && config == old(config)
        && store.rows == old(store.rows) && store.log == old(store.log)
      ensures (old(config).None? || force) && id !in old(store.rows) ==>
        r.Ok? && fresh(r.value) && config == Some(r.value)
        && r.value.State() == UNSET.(guildID := Present(id))
        && store.log == old(store.log) + [SelectById(id), InsertId(id)]
        && store.rows == old(store.rows)[id := NO_COLUMNS.(id := Present(id))]
      ensures (old(config).None? || force) && id in old(store.rows) ==>
        store.log == old(store.log) + [SelectById(id)] && store.rows == old(store.rows)
        && (Patched(UNSET, old(store.rows)[id]).threw ==> r == Err(RowDoesNotParse) && config == old(config))
        && (!Patched(UNSET, old(store.rows)[id]).threw ==>
              r.Ok? && fresh(r.value) && config == Some(r.value)
              && r.value.State() == Patched(UNSET, old(store.rows)[id]).state)
    {
      if config.Some? && !force {
        return Ok(config.value);
      }
      var row := store.Select(id);
      if row.None? {
        store.Insert(id);
        var c := new GuildConfig(NO_COLUMNS.(id := Present(id)));
        config := Some(c);
        return Ok(c);
      }
      if Patched(UNSET, row.value).threw {
        return Err(RowDoesNotParse);
      }
      var c := new GuildConfig(row.value);
      config := Some(c);
      return Ok(c);
    }
  }

  /** A configuration built from a bare id has only its guild id set. */
  lemma BareRowSetsOnlyTheId(id: Id)
    ensures Patched(UNSET, NO_COLUMNS.(id := Present(id))) == PatchResult(UNSET.(guildID := Present(id)), false)
  {
  }
}
