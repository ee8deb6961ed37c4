/** The chat server's objects and the operations on them, each run without interruption:
    what one call of a critical section does to the state it guards. How the calls of many
    threads interleave is the subject of ChatModel and the modules that build on it. */
module ChatObjects {
  import opened Options

  /** A queue between calls: the semaphore counts the queued messages. */
  class Queue {
    var messages: seq<string>
    var avail: nat

    ghost predicate Valid()
      reads this
    {
      avail == |messages|
    }

    constructor ()
      ensures Valid() && messages == []
    {
      messages, avail := [], 0;
    }

    method Enqueue(msg: string)
      requires Valid()
      modifies this
      ensures Valid() && messages == old(messages) + [msg]
    {
      messages := messages + [msg];
      avail := avail + 1;
    }

    /** The wait may give up at any time; it cannot succeed on an empty queue. */
    method Dequeue(timeout: bool) returns (msg: Option<string>)
      requires Valid()
      modifies this
      ensures Valid()
      ensures msg == None <==> timeout || old(messages) == []
      ensures msg.Some? ==> old(messages) == [msg.value] + messages
      ensures msg == None ==> messages == old(messages)
    {
      if timeout || avail == 0 {
        return None;
      }
      avail := avail - 1;
      msg := Some(messages[0]);
      messages := messages[1..];
    }
  }

  class User {
    const username: string
    const queue: Queue
    var roomName: string

    constructor (username: string)
      ensures this.username == username && roomName == "" && fresh(queue) && queue.Valid() && queue.messages == []
    {
      this.username, roomName := username, "";
      queue := new Queue();
    }
  }

  class Room {
    const name: string
    var members: set<User>

    /** Users have queues of their own, all of them in order. */
    ghost predicate Valid()
      reads this, members, set u <- members :: u.queue
    {
      && (forall u <- members :: u.queue.Valid())
      && (forall u <- members, v <- members :: u != v ==> u.queue != v.queue)
    }

    constructor (name: string)
      ensures this.name == name && members == {} && Valid()
    {
      this.name, members := name, {};
    }

    method AddMember(user: User)
      requires Valid() && user.queue.Valid() && forall u <- members :: u != user ==> u.queue != user.queue
      modifies this, user
      ensures Valid() && members == old(members) + {user} && user.roomName == name
    {
      members := members + {user};
      user.roomName := name;
    }

    method RemoveMember(user: User)
      requires Valid()
      modifies this, user
      ensures Valid() && members == old(members) - {user} && user.roomName == ""
    {
      members := members - {user};
      user.roomName := "";
    }

    /** Every member's queue gets the message once, at its end, and no other queue changes. */
    method BroadcastMessage(sender: string, text: string)
      requires Valid()
      modifies set u <- members :: u.queue
      ensures Valid()
      ensures forall u <- members :: u.queue.messages == old(u.queue.messages) + [name + ":" + sender + ":" + text]
    {
      var message := name + ":" + sender + ":" + text;
      var todo := members;
      while todo != {}
        invariant todo <= members && Valid()
        invariant forall u <- todo :: u.queue.messages == old(u.queue.messages)
        invariant forall u <- members - todo :: u.queue.messages == old(u.queue.messages) + [message]
        decreases todo
      {
        var u :| u in todo;
        todo := todo - {u};
        u.queue.Enqueue(message);
      }
    }
  }

  class Server {
    var rooms: map<string, Room>

    /** Every room is registered under its own name. */
    ghost predicate Valid()
      reads this, rooms.Values
    {
      forall n <- rooms :: rooms[n].name == n
    }

    constructor ()
      ensures Valid() && rooms == map[]
    {
      rooms := map[];
    }

    /** The one Room of the name: the registered one, or a new and empty one. */
    method FindOrCreateRoom(name: string) returns (room: Room)
      requires Valid()
      modifies this
      ensures Valid() && room.name == name && name in rooms && rooms[name] == room
      ensures if name in old(rooms) then rooms == old(rooms)
              else rooms == old(rooms)[name := room] && fresh(room) && room.members == {}
      ensures forall n <- rooms :: rooms[n] == room ==> n == name
    {
      if name in rooms {
        return rooms[name];
      }
      room := new Room(name);
      rooms := rooms[name := room];
    }
  }
}
