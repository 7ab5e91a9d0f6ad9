/** Option and Result values, and the exception kinds the system raises and classifies. */
module Wrappers {

  datatype Option<+T> = None | Some(value: T)

  /** A computation that either produced a value or raised an exception. */
  datatype Result<+T, +E> = Ok(value: T) | Err(error: E)

  /** The .NET exception types the core raises, catches or classifies.
      Only the type matters to the code paths modelled here; messages are left out. */
  datatype Exn =
    | TransientFailure        // TransientFailureException (the project's own transient marker)
    | HttpRequest             // HttpRequestException, also what EnsureSuccessStatusCode raises
    | Timeout                 // TimeoutException
    | Npgsql                  // NpgsqlException (database driver)
    | Socket                  // SocketException
    | BrokerUnreachable       // RabbitMQ BrokerUnreachableException
    | OperationCanceled       // OperationCanceledException / TaskCanceledException
    | SdmxFailure             // BanRepSdmxException (fatal answer of the statistics service)
    | Format                  // FormatException
    | ArgumentOutOfRange      // ArgumentOutOfRangeException
    | Argument                // ArgumentException
    | InvalidOperation        // InvalidOperationException
    | Overflow                // OverflowException
    | FileNotFound            // FileNotFoundException
    | UriFormat               // UriFormatException
    | Other(name: string)     // any other exception type, by name

  /** The text Exception.ToString() starts with: the exception's type name. */
  function ExceptionText(e: Exn): (t: string)
    ensures |t| > 0
  {
    match e
    case TransientFailure => "TransientFailureException"
    case HttpRequest => "HttpRequestException"
    case Timeout => "TimeoutException"
    case Npgsql => "NpgsqlException"
    case Socket => "SocketException"
    case BrokerUnreachable => "BrokerUnreachableException"
    case OperationCanceled => "OperationCanceledException"
    case SdmxFailure => "BanRepSdmxException"
    case Format => "FormatException"
    case ArgumentOutOfRange => "ArgumentOutOfRangeException"
    case Argument => "ArgumentException"
    case InvalidOperation => "InvalidOperationException"
    case Overflow => "OverflowException"
    case FileNotFound => "FileNotFoundException"
    case UriFormat => "UriFormatException"
    case Other(name) => name + "Exception"
  }
}
