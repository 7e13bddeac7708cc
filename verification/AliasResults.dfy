/** What an alias analysis says about two locations. */
module AliasResults {
  datatype AliasResult = NoAlias | MayAlias | PartialAlias | MustAlias
}
