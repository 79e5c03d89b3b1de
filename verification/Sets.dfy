/** Taking elements from sets, as loops over the keys of a dictionary or the rows of a query do. */
module Sets {
  method Pick<T(==)>(s: set<T>) returns (x: T)
    requires s != {}
    ensures x in s
  {
    x :| x in s;
  }
}
