/**
 The one number the root chain and the child chain have to agree on.
 */
module Protocol {

  /** Child blocks have the multiples of this number; the numbers between are left to deposits. */
  const CHILD_BLOCK_INTERVAL: nat := 1000
}
