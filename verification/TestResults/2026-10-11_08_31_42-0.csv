TestResult.DisplayName,TestResult.Outcome,TestResult.Duration,TestResult.ResourceCount,RandomSeed
CrossNerTarget.ConvertWithListAccumulator (correctness),Failed,00:00:00.4139936,2041387,1
CrossNerTarget.ConvertWithListAccumulator (well-formedness),Passed,00:00:00.0811302,40681,1
