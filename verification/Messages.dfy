module Messages {
  datatype Process = Process(name: string)

  /** One parsed log entry.  An empty `ip` means that the parser found none. */
  datatype Message = Message(entryDate: int, host: string, text: string, ip: string, process: Process)
}
