/** The two collections the controllers read and write, held in memory:
    event documents and user documents, each keyed by its id. */
module Database {
  import opened EventSchema
  import opened UserSchema

  class Store {
    var events: map<EventId, Event>
    var users: map<UserId, User>

    constructor(events: map<EventId, Event>, users: map<UserId, User>)
      ensures this.events == events && this.users == users
    {
      this.events := events;
      this.users := users;
    }
  }
}
