/** Types and constants shared by every module of the model.

    Strings and payloads are byte sequences: the program never interprets
    them as text, and names may hold arbitrary bytes.  Constants are those of
    include/omnibinder/types.h, include/omnibinder/message.h and
    service_manager/topic_manager.h.
  */
module Base {

  type byte = b: int | 0 <= b < 0x100
  type u16 = n: int | 0 <= n < 0x1_0000
  type u32 = n: int | 0 <= n < 0x1_0000_0000
  type u64 = n: int | 0 <= n < 0x1_0000_0000_0000_0000

  type Bytes = seq<byte>

  /** A name, an identifier or any other std::string of the program. */
  type Str = seq<byte>

  /** A connection handle of the service manager (a socket descriptor). */
  type Fd = int

  type Pid = u32

  datatype Option<+T> = None | Some(value: T)

  const MESSAGE_HEADER_SIZE: nat := 16
  const MAX_MESSAGE_SIZE: nat := 0x100_0000
  const DEFAULT_BUFFER_SIZE: nat := 4096
  const OMNI_MAGIC: u32 := 0x42494E44
  const OMNI_VERSION: u16 := 1

  const MAX_NAME_LENGTH: nat := 256
  const MAX_PUBLISHED_TOPICS: nat := 4096
  const MAX_PUBLISHED_TOPICS_BYTES: nat := 0x8_0000

  const MAX_TOPICS_GLOBAL: nat := 16384
  const MAX_PUBLICATIONS_PER_CONNECTION: nat := 4096
  const MAX_SUBSCRIPTIONS_PER_CONNECTION: nat := 4096
  const MAX_SUBSCRIBERS_PER_TOPIC: nat := 4096
  const MAX_SUBSCRIPTIONS_GLOBAL: nat := 16384
}
