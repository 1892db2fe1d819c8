/** The classes a claim may have (identity/facts.py); resolving and asserting
    both carry one. */
module Claims {
  datatype Evidence = Declared | Observed | Imported | Inferred
}
