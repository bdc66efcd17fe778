/** Publishing: the append-and-trim step of the API. */
module Producer {
  import opened Events
  import opened Protocol
  import opened Runtime

  class EventProducer {
    const world: World

    constructor (world: World)
      ensures this.world == world
    {
      this.world := world;
    }

    /** `publish`: append the event in an envelope of version 1, after which Redis may trim down to `maxlen`;
        `trimTo` is where it stops, and nothing is trimmed without a `maxlen`.  The event is read
        back unchanged from the id returned, if the payload encoding is faithful to it. */
    method Publish(event: TransactionEvent, trimTo: nat) returns (id: EntryId)
      requires world.Valid()
      modifies world
      ensures world.Valid() && old(world.run) < world.run && world.own == old(world.own)
      ensures var st, st' := old(world.sys.store), world.sys.store;
        && id == |st.stream|
        && st'.stream == st.stream + [map["schema_version" := "1", "payload" := world.cfg.codec.dump(event)]]
        && st' == st.(stream := st'.stream, first := st'.first)
        && (world.cfg.maxlen.None? ==> st'.first == st.first)
        && (st'.first > st.first ==> |st'.stream| - st'.first >= world.cfg.maxlen.value)
      ensures world.cfg.codec.load(world.cfg.codec.dump(event)) == Valid(event) ==>
        ToEvent(world.cfg.codec, world.sys.store.stream[id]) == Valid(event)
    {
      var fields := Published(world.cfg.codec, event);
      id := |world.sys.store.stream|;
      var first := if CanPublish(world.cfg, world.sys.store, trimTo) then trimTo else world.sys.store.first;
      world.KnownInv();
      world.Happens(Step.Publish(fields, first));
      if world.cfg.codec.load(world.cfg.codec.dump(event)) == Valid(event) {
        PublishedIsReadBack(world.cfg.codec, event);
      }
    }
  }
}
