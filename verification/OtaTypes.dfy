/** The vocabulary of the OTA client (esp32/main/ota/ota_logic.h). */
module OtaTypes {

  const OTA_ID_MAX: nat := 65
  const OTA_VERSION_MAX: nat := 33
  const OTA_TRACKER_SIZE: nat := 4
  const OTA_SLOT_SIZE: nat := 0x1E_0000
  const UINT32_MAX: nat := 0xFFFF_FFFF

  newtype byte = x: int | 0 <= x < 256

  // The text a `char[OTA_ID_MAX]` and a `char[OTA_VERSION_MAX]` can hold.
  type RequestId = s: string | |s| < OTA_ID_MAX
  type Version = s: string | |s| < OTA_VERSION_MAX

  type UInt32 = n: nat | n <= UINT32_MAX

  datatype OtaState =
    | Accepted | Rejected | Downloading | Verifying | Installing | Rebooting
    | Succeeded | Failed | RolledBack

  datatype OtaError =
    | NoError | Busy | SameVersion | InvalidCommand | ImageTooLarge
    | DownloadFailed | TlsError | SizeMismatch | Sha256Mismatch | NoOtaPartition
    | FlashError | NoMemory | Rollback | Internal

  /** accepted .. rebooting: an update is in flight. */
  predicate IsActive(s: OtaState) {
    s in {Accepted, Downloading, Verifying, Installing, Rebooting}
  }

  /** How far a request has come; the four outcomes are the end of the road. */
  function Rank(s: OtaState): nat {
    match s
    case Accepted => 0
    case Downloading => 1
    case Verifying => 2
    case Installing => 3
    case Rebooting => 4
    case Rejected => 5
    case Succeeded => 5
    case Failed => 5
    case RolledBack => 5
  }

  /** One request's last status. */
  datatype Status = Status(requestId: RequestId, targetVersion: Version,
                           state: OtaState, error: OtaError, progress: int)

  datatype Command = Command(requestId: RequestId, version: Version, url: string,
                             sha256: string, size: UInt32, force: bool)

  /** What survives a restart until the update is reported. */
  datatype Marker = Marker(requestId: RequestId, targetVersion: Version,
                           previousVersion: Version, targetSlot: int)

  datatype ImgState = Undefined | Valid | PendingVerify | New | Invalid
}
