TestResult.DisplayName,TestResult.Outcome,TestResult.Duration,TestResult.ResourceCount,RandomSeed
CrossNerTarget.ConvertWithListAccumulator (correctness),Failed,00:00:00.4331966,2041366,2
CrossNerTarget.ConvertWithListAccumulator (well-formedness),Passed,00:00:00.0948529,40647,2
