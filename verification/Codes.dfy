/** Return codes: zero, and the errno values that the modelled functions name. */
module Codes {
  datatype Code = OK | EAGAIN | EINVAL | EMSGSIZE | ETIMEDOUT | ECONNREFUSED | EOTHER(errno: nat)
}
