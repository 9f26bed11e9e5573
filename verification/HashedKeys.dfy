/** The hashed form of a cache key: two words, taken as arbitrary fixed values per key. */
module HashedKeys {
  datatype Key = Key(id: nat, hash: nat)
}
