/** publishBuffer: the records waiting for a flush and their byte counter. */
module PublishBuffer {
  import opened Common
  import opened FlushProtocol

  class PublishBuffer {
    var items: seq<Pending>
    var bytes: nat

    function View(): FlushProtocol.Buffer
      reads this
    {
      Buffer(items, bytes)
    }

    /** The counter is the total of the payload lengths. */
    ghost predicate Exact()
      reads this
    {
      bytes == Bytes(items)
    }

    constructor ()
      ensures View() == Buffer([], 0)
    {
      items, bytes := [], 0;
    }

    method Append(item: Pending)
      modifies this
      ensures View() == Buffer(old(items) + [item], old(bytes) + |item.payload|)
      ensures old(Exact()) ==> Exact()
    {
      BytesAppend(items, item);
      items := items + [item];
      bytes := bytes + |item.payload|;
    }

    method Drain() returns (batch: seq<Pending>)
      modifies this
      ensures batch == old(items) && View() == if batch == [] then old(View()) else Buffer([], 0)
      ensures old(Exact()) ==> View() == Buffer([], 0) && Exact()
    {
      if |items| == 0 {
        return [];
      }
      batch := items;
      items, bytes := [], 0;
    }
  }
}
