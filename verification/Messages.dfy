/** States, timeouts and queue entries of the message queue
    (the enum of smqueue.h and the tables at the top of smqueue.cpp). */
module Messages {
  import opened Wrappers

  datatype SmState =
    | NoState
    | Initial
    | RequestFromAddress
    | AskedForFromAddress
    | AwaitingTryDestinationImsi
    | RequestDestinationImsi
    | AskedForDestinationImsi
    | AwaitingTryDestinationSipUrl
    | RequestDestinationSipUrl
    | AskedForDestinationSipUrl
    | AwaitingTryMsgDelivery
    | RequestMsgDelivery
    | AskedForMsgDelivery
    | DeleteMe
    | AwaitingRegisterHandset
    | RegisterHandset
    | AskedToRegisterHandset

  /** Every entry of the tables, in milliseconds. */
  type Delay = d: nat | d <= 3_000_000

  const NT: Delay := 3_000_000  // "no timeout": 50 minutes
  const RT: Delay := 300_000    // retry from scratch after an error
  const TT: Delay := 60_000     // extra time after a 100 Trying

  /** The timeout tables as compiled in: how long a message may sit in `to` when it came from
      `from`. Most entries are NT, and going to NO_STATE or DELETE_ME never takes time except
      from NO_STATE to itself. */
  function Table(from: SmState, to: SmState): Delay {
    match from
    case NoState =>
      (match to
       case Initial | RequestFromAddress | RequestDestinationImsi | RequestDestinationSipUrl
         | RequestMsgDelivery | DeleteMe => 0
       case _ => NT)
    case Initial =>
      (match to
       case NoState | Initial | RequestFromAddress | RequestMsgDelivery | DeleteMe => 0
       case _ => NT)
    case RequestFromAddress =>
      (match to
       case NoState | RequestDestinationImsi | DeleteMe | RegisterHandset => 0
       case RequestFromAddress | AskedForFromAddress => 10
       case AwaitingRegisterHandset => 1
       case _ => NT)
    case AskedForFromAddress =>
      (match to
       case NoState | DeleteMe => 0
       case RequestFromAddress => 60
       case _ => NT)
    case RequestDestinationImsi =>
      (match to
       case NoState | RequestDestinationSipUrl | DeleteMe => 0
       case RequestFromAddress | AwaitingTryDestinationImsi => RT
       case _ => NT)
    case AwaitingTryDestinationImsi | AskedForDestinationImsi | AwaitingTryDestinationSipUrl
       | AskedForDestinationSipUrl =>
      (match to
       case NoState | DeleteMe => 0
       case RequestFromAddress | AwaitingTryDestinationImsi => RT
       case _ => NT)
    case RequestDestinationSipUrl =>
      (match to
       case NoState | RequestMsgDelivery | DeleteMe => 0
       case RequestFromAddress | AwaitingTryDestinationImsi => RT
       case _ => NT)
    case AwaitingTryMsgDelivery =>
      (match to
       case NoState | RequestMsgDelivery | DeleteMe => 0
       case RequestFromAddress | AwaitingTryDestinationImsi => RT
       case AwaitingTryMsgDelivery => 75_000
       case _ => NT)
    case RequestMsgDelivery =>
      (match to
       case NoState | DeleteMe => 0
       case RequestFromAddress | AwaitingTryDestinationImsi => RT
       case RequestDestinationSipUrl | AskedForMsgDelivery => 15_000
       case AwaitingTryMsgDelivery | RequestMsgDelivery => 75_000
       case _ => NT)
    case AskedForMsgDelivery =>
      (match to
       case NoState | DeleteMe => 0
       case RequestFromAddress => RT
       case AwaitingTryMsgDelivery => 60_000
       case RequestMsgDelivery => 10_000
       case AskedForMsgDelivery => TT
       case _ => NT)
    case DeleteMe => 0
    case AwaitingRegisterHandset =>
      (match to
       case NoState | RequestFromAddress | DeleteMe | RegisterHandset => 0
       case AwaitingTryDestinationImsi => RT
       case AwaitingRegisterHandset => 1000
       case _ => NT)
    case RegisterHandset =>
      (match to
       case NoState | RequestFromAddress | DeleteMe => 0
       case AwaitingTryDestinationImsi => RT
       case AwaitingRegisterHandset | RegisterHandset => 1000
       case AskedToRegisterHandset => 2000
       case _ => NT)
    case AskedToRegisterHandset =>
      (match to
       case NoState | RequestFromAddress | DeleteMe => 0
       case AwaitingTryDestinationImsi => RT
       case AwaitingRegisterHandset | RegisterHandset => 1000
       case AskedToRegisterHandset => 10_000
       case _ => NT)
  }

  datatype HostPort = HostPort(host: string, port: string)

  datatype CallId = CallId(number: string, host: Option<string>)

  /** The configuration keys the queue consults. */
  datatype Config = Config(
    maxRetries: nat,      // SMS.MaxRetries; 0 means no limit
    rateLimit: nat,       // SMS.RateLimit, in milliseconds; 0 means none
    ackTimeout: nat,      // SIP.Timeout.ACKedMessageResend, or its built-in 60000
    bounceDelay: nat,     // entry of the table that SIP.Timeout.MessageBounce overwrites
    bounceCode: string,   // Bounce.Code
    globalRelay: HostPort, // SIP.GlobalRelay, with an empty host when there is none
    registrar: HostPort,  // where REGISTER messages go
    myHost: string,       // own IP address
    defaultPort: string   // SIP.Default.BTSPort
  )

  /** The timeout table after start-up. */
  function Timeout(cfg: Config, from: SmState, to: SmState): (t: nat)
    ensures t <= MaxDelay(cfg)
  {
    if from == RequestDestinationImsi && to == DeleteMe then cfg.bounceDelay else Table(from, to)
  }

  /** No single timer set by the program runs longer than this. */
  function MaxDelay(cfg: Config): (d: nat)
    ensures NT <= d && cfg.bounceDelay <= d && cfg.ackTimeout <= d && cfg.rateLimit <= d
  {
    Max(Max(NT, cfg.bounceDelay), Max(cfg.ackTimeout, cfg.rateLimit))
  }

  function Max(a: int, b: int): int {
    if a < b then b else a
  }

  datatype Method = MESSAGE | REGISTER

  /** A SIP request or a SIP response with its status code. */
  datatype Kind = Request(verb: Method) | Response(status: nat)

  /** A queued message. `id` stands for the identity of its list node; `forRelay` says that it is to be
      converted to the content type of the global relay. */
  datatype Msg = Msg(
    id: nat,
    kind: Kind,
    cseq: string,
    fromTag: string,
    fromUser: string,
    reqUser: Option<string>,
    dest: HostPort,
    callId: CallId,
    forRelay: bool,
    state: SmState,
    time: int,
    retries: nat,
    qtag: string,
    qtaghash: char,
    linktag: Option<string>
  )

  predicate IsRegistrationState(s: SmState) {
    s == AskedToRegisterHandset || s == RegisterHandset || s == AwaitingRegisterHandset
  }
}
