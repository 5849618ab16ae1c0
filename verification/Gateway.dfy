/** What one room's gateway is configured with, and the identities it uses towards the store. */
module Gateway {
  import opened Bytes
  import opened Frame
  import opened Loro

  /** Producer ids; a delta producer is scoped to one gateway boot and one generation (src/names.rs). */
  datatype Names = Names(
    manifest: seq<byte>,
    checkpoint: nat -> seq<byte>,
    delta: (nat, nat) -> seq<byte>
  )

  datatype Gateway = Gateway(
    h: Platform,
    lib: Library,
    room: seq<byte>,
    names: Names,
    frameLimits: FrameLimits,
    ambiguousRetries: nat
  )

  /** The library laws, and delta producer ids that are text. */
  ghost predicate WellConfigured(g: Gateway) {
    && Lawful(g.lib)
    && forall boot, generation :: g.h.utf8(g.names.delta(boot, generation))
  }
}
