/** The view of pools and drives that is kept for one payload. */
module StorageView {
  import opened Prelude
  import opened Json
  import L = PoolLookup

  /** A payload object; callers may also change it in place. */
  class Payload {
    var content: Fields

    constructor (content: Fields)
      ensures this.content == content
    {
      this.content := content;
    }
  }

  /** How pools are read from a payload's content and drives from a pool. */
  datatype Readers = Readers(pools: Option<Fields> -> seq<Fields>, drives: Fields -> seq<Fields>)

  ghost function ContentOf(data: Payload?): Option<Fields>
    reads data
  {
    if data == null then None else Some(data.content)
  }

  class View {
    const readers: Readers
    const data: Payload?
    const pools: seq<Fields>
    // The drives already read, by the place of their pool.
    var drives: map<nat, seq<Fields>>
    // What the payload held when the view was made.
    ghost const seen: Option<Fields>

    ghost predicate Valid()
      reads this
    {
      && pools == readers.pools(seen)
      && forall place :: place in drives ==> place < |pools| && drives[place] == readers.drives(pools[place])
    }

    constructor (readers: Readers, data: Payload?)
      ensures Valid() && this.readers == readers && this.data == data && seen == ContentOf(data) && drives == map[]
    {
      this.readers := readers;
      this.data := data;
      this.pools := readers.pools(if data == null then None else Some(data.content));
      this.seen := ContentOf(data);
      this.drives := map[];
    }

    method Pool(key: string) returns (place: Option<nat>)
      ensures place == L.Lookup(pools, key)
    {
      place := L.FromKey(pools, key);
    }

    /** Reads the drives of a pool of this view once and returns the kept list afterwards. */
    method Drives(place: nat) returns (r: seq<Fields>)
      requires Valid() && place < |pools|
      modifies this`drives
      ensures Valid() && r == readers.drives(pools[place])
      ensures place in drives && drives[place] == r
      ensures forall other :: other in old(drives) ==> other in drives && drives[other] == old(drives)[other]
      ensures place in old(drives) ==> drives == old(drives)
    {
      if place !in drives {
        drives := drives[place := readers.drives(pools[place])];
      }
      r := drives[place];
    }
  }

  /** The coordinator's payload and its kept view. */
  class Coordinator {
    const readers: Readers
    var data: Payload?
    var view: View?
    // Some payload changed in place since the listeners were last updated.
    ghost var stale: bool

    ghost predicate Valid()
      reads this, view, if view == null then null else view.data
    {
      view != null ==>
        && view.readers == readers
        && view.Valid()
        && (!stale ==> view.seen == ContentOf(view.data))
    }

    constructor (readers: Readers, data: Payload?)
      ensures Valid() && this.readers == readers && this.data == data && view == null && !stale
    {
      this.readers := readers;
      this.data := data;
      this.view := null;
      this.stale := false;
    }

    /** A poll publishes another payload object, or one that was there before. */
    method Replace(payload: Payload?)
      requires Valid()
      modifies this`data
      ensures Valid() && data == payload
    {
      data := payload;
    }

    /** A caller changes a payload object in place. */
    method ChangeInPlace(payload: Payload, content: Fields)
      requires Valid()
      modifies payload, this`stale
      ensures Valid() && stale && payload.content == content
    {
      stale := true;
      payload.content := content;
    }

    /** `async_update_listeners` */
    method UpdateListeners()
      requires Valid()
      modifies this`view, this`stale
      ensures Valid() && !stale && view == null
    {
      view := null;
      stale := false;
    }

    /** `storage_view`: whenever every change in place was followed by a listener update, the view
        agrees with a fresh reading of the current payload. */
    method StorageView() returns (v: View)
      requires Valid()
      modifies this`view
      ensures Valid() && view == v && v.data == data
      ensures !stale ==> v.pools == readers.pools(ContentOf(data))
      ensures old(view) != null && old(view).data == data ==> v == old(view)
      ensures v != old(view) ==> fresh(v) && v.pools == readers.pools(ContentOf(data))
    {
      if view == null || view.data != data {
        view := new View(readers, data);
      }
      v := view;
    }

    /** Drives asked for through the coordinator's view. */
    method DrivesOf(place: nat) returns (r: seq<Fields>)
      requires Valid() && !stale && place < |readers.pools(ContentOf(data))|
      modifies this`view, view
      ensures Valid() && r == readers.drives(readers.pools(ContentOf(data))[place])
    {
      var v := StorageView();
      r := v.Drives(place);
    }
  }
}
