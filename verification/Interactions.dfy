/** The part of the session reducer that follows pending interactions: every id is asked
    about once, and one interaction at a time waits for its answer. */
module Interactions {
  import opened Outcomes

  datatype Asked = Asked(seen: set<string>, waiting: Option<string>)

  const NOBODY := Asked({}, None)

  function Ask(asked: Asked, interaction: string): Result<Asked> {
    if interaction == "" then Err("interaction_expired")
    else if interaction in asked.seen then Err("duplicate_pending_interaction_id")
    else Ok(Asked(asked.seen + {interaction}, Some(interaction)))
  }

  /** An answer that names no interaction fits the one that waits. */
  function Answer(asked: Asked, interaction: string): Result<Asked> {
    if asked.waiting.None? then Err("pending_resolution_without_pending")
    else if interaction != "" && interaction != asked.waiting.value then Err("pending_resolution_identity_mismatch")
    else Ok(asked.(waiting := None))
  }
}
