/** The client directory file `clients.json`, as the server reads it and the
    catalog scraper rewrites it. */
module ClientsJson {
  import opened Strings

  /** One client record: its private system prompt and its other fields
      (name, colours, welcome text, ...), which the core only passes along. */
  datatype ClientConfig = ClientConfig(systemPrompt: string, display: map<string, string>)

  /** The file as `JSON.parse(fs.readFileSync(...))` yields it: unreadable or
      not parseable, or an object from client id to entry, where `None`
      stands for a falsy JSON value (such as `null`) stored under that id. */
  datatype ClientsFile = Unreadable | Parsed(entries: map<string, Option<ClientConfig>>)

  /** `clients[key]` holds a truthy record. */
  predicate HasRecord(file: ClientsFile, key: string) {
    file.Parsed? && key in file.entries && file.entries[key].Some?
  }
}
