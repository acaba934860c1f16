/** The timeout tables row by row, as they are compiled in, beside the table by cases. */
module TimerRows {
  import opened Messages

  /** Position of a state in the enum of smqueue.h. */
  function Index(s: SmState): (n: nat)
    ensures n < 17
  {
    match s
    case NoState => 0
    case Initial => 1
    case RequestFromAddress => 2
    case AskedForFromAddress => 3
    case AwaitingTryDestinationImsi => 4
    case RequestDestinationImsi => 5
    case AskedForDestinationImsi => 6
    case AwaitingTryDestinationSipUrl => 7
    case RequestDestinationSipUrl => 8
    case AskedForDestinationSipUrl => 9
    case AwaitingTryMsgDelivery => 10
    case RequestMsgDelivery => 11
    case AskedForMsgDelivery => 12
    case DeleteMe => 13
    case AwaitingRegisterHandset => 14
    case RegisterHandset => 15
    case AskedToRegisterHandset => 16
  }

  /** The row of a state in the tables of smqueue.cpp, in milliseconds. */
  function Row(from: SmState): (row: seq<nat>)
    ensures |row| == 17
  {
    match from
    case NoState =>
      [NT, 0, 0, NT, NT, 0, NT, NT, 0, NT, NT, 0, NT, 0, NT, NT, NT]
    case Initial =>
      [0, 0, 0, NT, NT, NT, NT, NT, NT, NT, NT, 0, NT, 0, NT, NT, NT]
    case RequestFromAddress =>
      [0, NT, 10, 10, NT, 0, NT, NT, NT, NT, NT, NT, NT, 0, 1, 0, NT]
    case AskedForFromAddress =>
      [0, NT, 60, NT, NT, NT, NT, NT, NT, NT, NT, NT, NT, 0, NT, NT, NT]
    case AwaitingTryDestinationImsi =>
      [0, NT, RT, NT, RT, NT, NT, NT, NT, NT, NT, NT, NT, 0, NT, NT, NT]
    case RequestDestinationImsi =>
      [0, NT, RT, NT, RT, NT, NT, NT, 0, NT, NT, NT, NT, 0, NT, NT, NT]
    case AskedForDestinationImsi =>
      [0, NT, RT, NT, RT, NT, NT, NT, NT, NT, NT, NT, NT, 0, NT, NT, NT]
    case AwaitingTryDestinationSipUrl =>
      [0, NT, RT, NT, RT, NT, NT, NT, NT, NT, NT, NT, NT, 0, NT, NT, NT]
    case RequestDestinationSipUrl =>
      [0, NT, RT, NT, RT, NT, NT, NT, NT, NT, NT, 0, NT, 0, NT, NT, NT]
    case AskedForDestinationSipUrl =>
      [0, NT, RT, NT, RT, NT, NT, NT, NT, NT, NT, NT, NT, 0, NT, NT, NT]
    case AwaitingTryMsgDelivery =>
      [0, NT, RT, NT, RT, NT, NT, NT, NT, NT, 75_000, 0, NT, 0, NT, NT, NT]
    case RequestMsgDelivery =>
      [0, NT, RT, NT, RT, NT, NT, NT, 15_000, NT, 75_000, 75_000, 15_000, 0, NT, NT, NT]
    case AskedForMsgDelivery =>
      [0, NT, RT, NT, NT, NT, NT, NT, NT, NT, 60_000, 10_000, 60_000, 0, NT, NT, NT]
    case DeleteMe =>
      [0, 0, 0, 0, 0, 0, 0, 0, 0, 0, 0, 0, 0, 0, 0, 0, 0]
    case AwaitingRegisterHandset =>
      [0, NT, 0, NT, RT, NT, NT, NT, NT, NT, NT, NT, NT, 0, 1000, 0, NT]
    case RegisterHandset =>
      [0, NT, 0, NT, RT, NT, NT, NT, NT, NT, NT, NT, NT, 0, 1000, 1000, 2000]
    case AskedToRegisterHandset =>
      [0, NT, 0, NT, RT, NT, NT, NT, NT, NT, NT, NT, NT, 0, 1000, 1000, 10_000]
  }

  /** "No timeout" and "retry" are 50 and 5 minutes. */
  lemma NamedDelays()
    ensures NT == 3_000_000 && RT == 300_000 && TT == 60_000
  {
  }

  /** The table by cases is the table by rows, for every pair of states. */
  lemma TableAsCompiled(from: SmState, to: SmState)
    ensures Table(from, to) == Row(from)[Index(to)]
  {
  }
}
