/** What pjsua-lib reserves as "none". */
module Pjsua {

  /** No account, no call. */
  const INVALID_ID: int := -1

  /** No video device. */
  const INVALID_DEV: int := -3
}
