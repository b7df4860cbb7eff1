/**
 * The connection state machine shared by the NFC tag technologies. A
 * technology object remembers whether it believes itself connected; the tag
 * it belongs to records which technology is connected (-1 for none). The NFC
 * service's answers are the inputs of each operation.
 */
module NfcTagTechnology {
  import opened Wrappers

  /** ErrorCodes.SUCCESS. */
  const SUCCESS: int := 0
  /** The tag's marker for "no technology connected". */
  const DISCONNECTED: int := -1

  /** What a call to the NFC service produced: a status code, or the service died (RemoteException). */
  datatype ServiceReply = Status(code: int) | ServiceDied

  /** The service's answer to transceive: null, a result object, or the service died. */
  datatype TransceiveReply =
    | NullResult
    | Result(successful: bool, tagLost: bool, response: seq<byte>)
    | TransceiveDied

  /** How an operation ends: normally, or with one of the exceptions the source throws. */
  datatype Outcome<T> =
    | Done(value: T)
    | IOException
    | TagLostException
    | IllegalStateException

  /** The tag object; setConnectedTechnology / setTechnologyDisconnected write this field. */
  class Tag {
    var connectedTechnology: int

    constructor (tech: int)
      ensures connectedTechnology == tech
    {
      connectedTechnology := tech;
    }
  }

  /** The guard every I/O operation checks first (checkConnected). */
  predicate ConnectedTo(tagTech: int, selected: int)
  {
    tagTech == selected && tagTech != DISCONNECTED
  }

  class TagTechnology {
    const tag: Tag
    const selectedTechnology: int
    var isConnected: bool

    constructor (t: Tag, tech: int)
      ensures tag == t && selectedTechnology == tech && !isConnected
    {
      tag := t;
      selectedTechnology := tech;
      isConnected := false;
    }

    /** checkConnected: passes only when the tag's connected technology is this one and is not -1. */
    method CheckConnected() returns (r: Outcome<()>)
      ensures r.Done? <==> ConnectedTo(tag.connectedTechnology, selectedTechnology)
      ensures !r.Done? ==> r.IllegalStateException?
    {
      if tag.connectedTechnology != selectedTechnology || tag.connectedTechnology == DISCONNECTED {
        return IllegalStateException;
      }
      return Done(());
    }

    /**
     * isConnected: false without asking the service when not connected;
     * otherwise the service's presence answer, false when the service died.
     */
    method IsConnected(present: Option<bool>) returns (r: bool)
      ensures r <==> isConnected && present == Some(true)
    {
      if !isConnected {
        return false;
      }
      match present {
        case None => return false;
        case Some(p) => return p;
      }
    }

    /**
     * connect: on SUCCESS the tag records this technology and the object is
     * connected; any other code, or the service dying, is an IOException and
     * changes nothing.
     */
    method Connect(reply: ServiceReply) returns (r: Outcome<()>)
      modifies this, tag
      ensures r.Done? <==> reply == Status(SUCCESS)
      ensures !r.Done? ==> r.IOException?
      ensures r.Done? ==> isConnected && tag.connectedTechnology == selectedTechnology
      ensures !r.Done? ==> isConnected == old(isConnected) && tag.connectedTechnology == old(tag.connectedTechnology)
    {
      match reply {
        case ServiceDied =>
          return IOException;
        case Status(code) =>
          if code == SUCCESS {
            tag.connectedTechnology := selectedTechnology;
            isConnected := true;
            return Done(());
          }
          return IOException;
      }
    }

    /**
     * reconnect: refused with IllegalStateException when not connected
     * (the service is not asked); a failure code or the service dying
     * disconnects both the object and the tag and is an IOException.
     */
    method Reconnect(reply: ServiceReply) returns (r: Outcome<()>)
      modifies this, tag
      ensures !old(isConnected) ==> (r.IllegalStateException? &&
        isConnected == old(isConnected) && tag.connectedTechnology == old(tag.connectedTechnology))
      ensures old(isConnected) && reply == Status(SUCCESS) ==> (r.Done? &&
        isConnected && tag.connectedTechnology == old(tag.connectedTechnology))
      ensures old(isConnected) && reply != Status(SUCCESS) ==> (r.IOException? &&
        !isConnected && tag.connectedTechnology == DISCONNECTED)
    {
      if !isConnected {
        return IllegalStateException;
      }
      match reply {
        case ServiceDied =>
          isConnected := false;
          tag.connectedTechnology := DISCONNECTED;
          return IOException;
        case Status(code) =>
          if code != SUCCESS {
            isConnected := false;
            tag.connectedTechnology := DISCONNECTED;
            return IOException;
          }
          return Done(());
      }
    }

    /** close: whatever the service answers, ends disconnected on the object and the tag. */
    method Close(reply: ServiceReply)
      modifies this, tag
      ensures !isConnected && tag.connectedTechnology == DISCONNECTED
    {
      isConnected := false;
      tag.connectedTechnology := DISCONNECTED;
    }

    /**
     * transceive: checkConnected first; then the response bytes of a
     * successful result, TagLostException for a lost tag, and IOException
     * for a null result, any other failure or a dead service.
     */
    method Transceive(data: seq<byte>, raw: bool, reply: TransceiveReply) returns (r: Outcome<seq<byte>>)
      ensures !ConnectedTo(tag.connectedTechnology, selectedTechnology) ==> r.IllegalStateException?
      ensures ConnectedTo(tag.connectedTechnology, selectedTechnology) ==>
        match reply
        case Result(ok, lost, bytes) =>
          r == (if ok then Done(bytes) else if lost then TagLostException else IOException)
        case _ => r.IOException?
    {
      var check := CheckConnected();
      if !check.Done? {
        return IllegalStateException;
      }
      match reply {
        case NullResult => return IOException;
        case TransceiveDied => return IOException;
        case Result(ok, lost, bytes) =>
          if ok {
            return Done(bytes);
          } else if lost {
            return TagLostException;
          } else {
            return IOException;
          }
      }
    }
  }
}
