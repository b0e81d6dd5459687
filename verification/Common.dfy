/** What several parts share. */
module Common {
  type Ticket = string

  function One(b: bool): nat {
    if b then 1 else 0
  }
}
